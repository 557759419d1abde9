/** The evidence package: four views of one summary and a manifest, written, read back and classified. */
module Evidence {
  import opened Common
  import opened Records

  datatype Payload = Payload(runId: string, generatedAt: string, records: seq<Record>)
  datatype JunitCase = JunitCase(classname: string, name: string, duration: nat, failure: Option<string>)
  datatype Suite = Suite(tests: nat, failures: nat, cases: seq<JunitCase>)
  datatype FileHash = FileHash(name: FileName, digest: string)
  datatype Manifest = Manifest(runId: string, generatedAt: string, total: nat, passed: nat, failed: nat, files: seq<FileHash>)

  /** File formats, redaction and hashing, as functions the model does not look into. */
  datatype Formats = Formats(redact: string -> string, number: nat -> string, quoted: string -> string,
                             json: Payload -> string, readJson: string -> Option<Payload>,
                             csv: seq<Record> -> string, csvRows: string -> Option<nat>,
                             junit: Suite -> string, readJunit: string -> Option<(nat, nat)>,
                             manifest: Manifest -> string, readManifest: string -> Option<Manifest>,
                             digest: string -> string)
  {
    /** What is written can be read back. */
    ghost predicate Faithful() {
      && (forall p :: readJson(json(p)) == Some(p))
      && (forall rows :: csvRows(csv(rows)) == Some(|rows|))
      && (forall s :: readJunit(junit(s)) == Some((s.tests, s.failures)))
      && (forall m :: readManifest(manifest(m)) == Some(m))
    }
  }

  datatype FileName = Json | Markdown | Csv | Junit | ManifestJson

  const RENDERED: seq<FileName> := [Json, Markdown, Csv, Junit]

  /** A package directory: file names and their text. */
  type Package = map<FileName, string>

  // ------------------------------------------------------------- rendering

  /** `redact_value` on a record: every string leaf, and nothing else. */
  function RedactRecord(f: Formats, r: Record): Record {
    Record(f.redact(r.requirementId), f.redact(r.procedureId), f.redact(r.checkId), f.redact(r.expected),
           if r.observed.None? then None else Some(f.redact(r.observed.value)),
           r.status, r.passed, r.duration, f.redact(r.evidencePath))
  }

  function Redactor(f: Formats): Record -> Record {
    r => RedactRecord(f, r)
  }

  function MarkdownRow(f: Formats, r: Record): string {
    var observation := if r.status == NotObserved then "not observed" else if r.observed.None? then "None" else r.observed.value;
    "| " + r.requirementId + " | " + r.checkId + " | " + f.redact(observation)
    + " | " + (if r.passed then "PASS" else "FAIL") + " |\n"
  }

  function MarkdownRows(f: Formats, records: seq<Record>): string {
    if records == [] then ""
    else MarkdownRows(f, records[..|records| - 1]) + MarkdownRow(f, records[|records| - 1])
  }

  function MarkdownHead(f: Formats, summary: Summary): string {
    "# Verification summary: " + summary.runId + "\n\n- Passed: " + f.number(summary.Passed())
    + "\n- Failed: " + f.number(summary.Failed()) + "\n- Total: " + f.number(summary.Total())
    + "\n\n| Requirement | Check | Observation | Result |\n|---|---|---|---|\n"
  }

  function CaseOf(f: Formats): Record -> JunitCase {
    (r: Record) => JunitCase(r.requirementId, r.checkId, r.duration,
      if r.passed then None
      else Some(f.redact("expected=" + f.quoted(r.expected) + "; observed="
                         + (if r.observed.None? then "None" else f.quoted(r.observed.value)))))
  }

  function Views(f: Formats, summary: Summary): Package {
    map[Json := f.json(Payload(f.redact(summary.runId), f.redact(summary.generatedAt), Map(Redactor(f), summary.records))),
        Markdown := MarkdownHead(f, summary) + MarkdownRows(f, summary.records),
        Csv := f.csv(Map(Redactor(f), summary.records)),
        Junit := f.junit(Suite(summary.Total(), summary.Failed(), Map(CaseOf(f), summary.records)))]
  }

  function Hashes(f: Formats, package: Package, names: seq<FileName>): seq<FileHash> {
    if names == [] then []
    else
      var n := |names| - 1;
      Hashes(f, package, names[..n]) + (if names[n] in package then [FileHash(names[n], f.digest(package[names[n]]))] else [])
  }

  function ManifestOf(f: Formats, package: Package, summary: Summary): Manifest {
    Manifest(summary.runId, summary.generatedAt, summary.Total(), summary.Passed(), summary.Failed(),
             Hashes(f, package, RENDERED))
  }

  /** The whole package of a summary. */
  function Rendered(f: Formats, summary: Summary): Package {
    var views := Views(f, summary);
    views[ManifestJson := f.manifest(ManifestOf(f, views, summary))]
  }

  // -------------------------------------------------------- reconciliation

  datatype Counts = Counts(total: nat, failed: nat, passed: nat)
  datatype Problem = MissingFiles | Unreadable | ZeroChecks | UnobservedPass | TotalsDisagree | FailuresDisagree
                   | NotRedacted | NoManifest | HashMismatch | ManifestTotals
  datatype Result = Ok(counts: Counts) | Err(problem: Problem)

  predicate AllThere(package: Package) {
    forall name | name in RENDERED :: name in package
  }

  /** Redaction changes none of the rendered texts. */
  predicate Clean(f: Formats, package: Package) {
    forall name | name in RENDERED && name in package :: f.redact(package[name]) == package[name]
  }

  predicate HashesMatch(f: Formats, package: Package, files: seq<FileHash>) {
    forall e | e in files :: e.name in package && f.digest(package[e.name]) == e.digest
  }

  predicate PassesUnobserved(r: Record) {
    r.status == NotObserved && r.passed
  }

  /** The checks of `reconcile_evidence`, in order. */
  function Reconcile(f: Formats, package: Package): Result {
    if !AllThere(package) then Err(MissingFiles)
    else if f.readJson(package[Json]).None? then Err(Unreadable)
    else
      var records := f.readJson(package[Json]).value.records;
      var total, failed := |records|, |records| - CountPassed(records);
      if records == [] then Err(ZeroChecks)
      else if exists r :: r in records && PassesUnobserved(r) then Err(UnobservedPass)
      else if f.csvRows(package[Csv]).None? || f.readJunit(package[Junit]).None? then Err(Unreadable)
      else
        var csvTotal, junit := f.csvRows(package[Csv]).value, f.readJunit(package[Junit]).value;
        if !(total == csvTotal == junit.0) then Err(TotalsDisagree)
        else if failed != junit.1 then Err(FailuresDisagree)
        else if !Clean(f, package) then Err(NotRedacted)
        else if ManifestJson !in package then Err(NoManifest)
        else if f.readManifest(package[ManifestJson]).None? then Err(Unreadable)
        else
          var manifest := f.readManifest(package[ManifestJson]).value;
          if !HashesMatch(f, package, manifest.files) then Err(HashMismatch)
          else if manifest.total != total then Err(ManifestTotals)
          else Ok(Counts(total, failed, total - failed))
  }

  ghost function Failures(records: seq<Record>): set<int> {
    set i | 0 <= i < |records| && !records[i].passed
  }

  /** What each problem says about a package, whatever other problems it has. */
  ghost predicate HasProblem(f: Formats, package: Package, problem: Problem) {
    var payload := if Json in package then f.readJson(package[Json]) else None;
    var records := if payload.Some? then payload.value.records else [];
    var rows := if Csv in package then f.csvRows(package[Csv]) else None;
    var junit := if Junit in package then f.readJunit(package[Junit]) else None;
    var m := if ManifestJson in package then f.readManifest(package[ManifestJson]) else None;
    match problem
    case MissingFiles => exists name: FileName :: name != ManifestJson && name !in package
    case Unreadable => payload.None? || rows.None? || junit.None? || (ManifestJson in package && m.None?)
    case ZeroChecks => payload.Some? && records == []
    case UnobservedPass => exists r :: r in records && r.passed && r.status == NotObserved
    case TotalsDisagree => rows.Some? && junit.Some? && !(rows.value == |records| && junit.value.0 == |records|)
    case FailuresDisagree => junit.Some? && junit.value.1 != |Failures(records)|
    case NotRedacted => exists name :: name != ManifestJson && name in package && f.redact(package[name]) != package[name]
    case NoManifest => ManifestJson !in package
    case HashMismatch => m.Some? && exists e :: e in m.value.files && !(e.name in package && e.digest == f.digest(package[e.name]))
    case ManifestTotals => m.Some? && m.value.total != |records|
  }

  lemma {:induction false} OkHasNone(f: Formats, package: Package, problem: Problem)
    requires Reconcile(f, package).Ok?
    ensures !HasProblem(f, package, problem)
  {
    Present(package);
    FailedCounted(f.readJson(package[Json]).value.records);
    hide CountPassed, Failures;
    match problem {
      case UnobservedPass =>
        assert forall r | r in f.readJson(package[Json]).value.records :: !PassesUnobserved(r);
      case NotRedacted =>
        assert forall name: FileName | name != ManifestJson :: name in RENDERED;
      case _ =>
    }
  }

  lemma {:induction false} ErrHasIt(f: Formats, package: Package)
    requires Reconcile(f, package).Err?
    ensures HasProblem(f, package, Reconcile(f, package).problem)
  {
    Present(package);
    if Json in package && f.readJson(package[Json]).Some? {
      FailedCounted(f.readJson(package[Json]).value.records);
    }
    hide CountPassed, Failures, AllThere;
  }

  /** A package reconciles exactly when it has none of the problems; an error names one that it has. */
  lemma {:induction false} ReconcileTells(f: Formats, package: Package)
    ensures Reconcile(f, package).Ok? <==> forall problem :: !HasProblem(f, package, problem)
    ensures Reconcile(f, package).Err? ==> HasProblem(f, package, Reconcile(f, package).problem)
    ensures Reconcile(f, package).Ok? ==> CountsTell(f, package, Reconcile(f, package).counts)
  {
    if Reconcile(f, package).Ok? {
      forall problem ensures !HasProblem(f, package, problem) {
        OkHasNone(f, package, problem);
      }
      FailedCounted(f.readJson(package[Json]).value.records);
      hide CountPassed, Failures;
    } else {
      ErrHasIt(f, package);
      hide HasProblem;
    }
  }

  ghost predicate CountsTell(f: Formats, package: Package, counts: Counts) {
    && Json in package && f.readJson(package[Json]).Some?
    && var records := f.readJson(package[Json]).value.records;
    && counts.total == |records| && counts.failed == |Failures(records)| && counts.passed == counts.total - counts.failed
  }

  lemma {:induction false} Present(package: Package)
    ensures AllThere(package) <==> Json in package && Markdown in package && Csv in package && Junit in package
  {
    assert RENDERED[0] == Json && RENDERED[1] == Markdown && RENDERED[2] == Csv && RENDERED[3] == Junit;
  }

  lemma {:induction false} FailedCounted(records: seq<Record>)
    ensures |Failures(records)| == |records| - CountPassed(records)
  {
    if records == [] {
      assert Failures(records) == {};
    } else {
      var n := |records| - 1;
      FailedCounted(records[..n]);
      assert Failures(records) == Failures(records[..n]) + (if records[n].passed then {} else {n});
    }
  }

  /** `reconcile_evidence` */
  method ReconcileEvidence(f: Formats, package: Package) returns (result: Result)
    ensures result == Reconcile(f, package)
  {
    var i := 0;
    while i < |RENDERED|
      invariant 0 <= i <= |RENDERED| && forall k | 0 <= k < i :: RENDERED[k] in package
    {
      if RENDERED[i] !in package {
        return Err(MissingFiles);
      }
      i := i + 1;
    }
    assert RENDERED[0] in package && RENDERED[2] in package && RENDERED[3] in package;
    var payload := f.readJson(package[Json]);
    if payload.None? {
      return Err(Unreadable);
    }
    var records := payload.value.records;
    if records == [] {
      return Err(ZeroChecks);
    }
    var failed, unobservedPasses := CountFailed(records);
    if unobservedPasses {
      return Err(UnobservedPass);
    }
    var csvTotal, junit := f.csvRows(package[Csv]), f.readJunit(package[Junit]);
    if csvTotal.None? || junit.None? {
      return Err(Unreadable);
    }
    if |records| != csvTotal.value || csvTotal.value != junit.value.0 {
      return Err(TotalsDisagree);
    }
    if failed != junit.value.1 {
      return Err(FailuresDisagree);
    }
    i := 0;
    while i < |RENDERED|
      invariant 0 <= i <= |RENDERED| && forall k | 0 <= k < i :: f.redact(package[RENDERED[k]]) == package[RENDERED[k]]
    {
      if f.redact(package[RENDERED[i]]) != package[RENDERED[i]] {
        return Err(NotRedacted);
      }
      i := i + 1;
    }
    if ManifestJson !in package {
      return Err(NoManifest);
    }
    var manifest := f.readManifest(package[ManifestJson]);
    if manifest.None? {
      return Err(Unreadable);
    }
    var matching := CheckHashes(f, package, manifest.value.files);
    if !matching {
      return Err(HashMismatch);
    }
    if manifest.value.total != |records| {
      return Err(ManifestTotals);
    }
    result := Ok(Counts(|records|, failed, |records| - failed));
  }

  method CountFailed(records: seq<Record>) returns (failed: nat, unobservedPasses: bool)
    ensures failed == |records| - CountPassed(records)
    ensures unobservedPasses <==> exists r :: r in records && PassesUnobserved(r)
  {
    failed, unobservedPasses := 0, false;
    for i := 0 to |records|
      invariant failed == i - CountPassed(records[..i])
      invariant unobservedPasses <==> exists r :: r in records[..i] && PassesUnobserved(r)
    {
      PrefixStep(records, i);
      assert records[..i + 1][..i] == records[..i];
      if !records[i].passed {
        failed := failed + 1;
      }
      unobservedPasses := unobservedPasses || PassesUnobserved(records[i]);
    }
    assert records[..|records|] == records;
  }

  method CheckHashes(f: Formats, package: Package, files: seq<FileHash>) returns (matching: bool)
    ensures matching <==> HashesMatch(f, package, files)
  {
    for i := 0 to |files|
      invariant HashesMatch(f, package, files[..i])
    {
      PrefixStep(files, i);
      if files[i].name !in package || f.digest(package[files[i].name]) != files[i].digest {
        return false;
      }
    }
    assert files[..|files|] == files;
    matching := true;
  }

  /** The loops of `render_evidence` over the records. */
  method RenderRecords(f: Formats, records: seq<Record>) returns (rows: seq<Record>, cases: seq<JunitCase>, markdown: string)
    ensures rows == Map(Redactor(f), records) && cases == Map(CaseOf(f), records) && markdown == MarkdownRows(f, records)
  {
    hide MarkdownRow, RedactRecord;
    rows, cases, markdown := [], [], "";
    for i := 0 to |records|
      invariant rows == Map(Redactor(f), records[..i]) && cases == Map(CaseOf(f), records[..i])
      invariant markdown == MarkdownRows(f, records[..i])
    {
      assert records[..i + 1][..i] == records[..i];
      rows := rows + [Redactor(f)(records[i])];
      markdown := markdown + MarkdownRow(f, records[i]);
      cases := cases + [CaseOf(f)(records[i])];
    }
    assert records[..|records|] == records;
  }

  /** `render_evidence`: the four views, the manifest, and the package read back. */
  method RenderEvidence(f: Formats, summary: Summary) returns (package: Package, result: Result)
    ensures package == Rendered(f, summary) && result == Reconcile(f, package)
  {
    hide Reconcile, MarkdownHead, MarkdownRows, ManifestOf;
    var rows, cases, markdown := RenderRecords(f, summary.records);
    package := map[];
    package := package[Json := f.json(Payload(f.redact(summary.runId), f.redact(summary.generatedAt), rows))];
    package := package[Markdown := MarkdownHead(f, summary) + markdown];
    package := package[Csv := f.csv(rows)];
    package := package[Junit := f.junit(Suite(summary.Total(), summary.Failed(), cases))];
    package := WriteManifest(f, package, summary);
    result := ReconcileEvidence(f, package);
  }

  /** `write_manifest` */
  method WriteManifest(f: Formats, package: Package, summary: Summary) returns (written: Package)
    ensures written == package[ManifestJson := f.manifest(ManifestOf(f, package, summary))]
  {
    var files: seq<FileHash> := [];
    for i := 0 to |RENDERED|
      invariant files == Hashes(f, package, RENDERED[..i])
    {
      assert RENDERED[..i + 1][..i] == RENDERED[..i];
      if RENDERED[i] in package {
        files := files + [FileHash(RENDERED[i], f.digest(package[RENDERED[i]]))];
      }
    }
    assert RENDERED[..|RENDERED|] == RENDERED;
    written := package[ManifestJson :=
      f.manifest(Manifest(summary.runId, summary.generatedAt, summary.Total(), summary.Passed(), summary.Failed(), files))];
  }

  // What each view says about each record.

  ghost predicate RowTells(f: Formats, r: Record, row: Record) {
    && row.requirementId == f.redact(r.requirementId) && row.procedureId == f.redact(r.procedureId)
    && row.checkId == f.redact(r.checkId) && row.expected == f.redact(r.expected) && row.evidencePath == f.redact(r.evidencePath)
    && row.observed == (if r.observed.None? then None else Some(f.redact(r.observed.value)))
    && row.status == r.status && row.passed == r.passed && row.duration == r.duration
  }

  ghost predicate CaseTells(f: Formats, r: Record, c: JunitCase) {
    && c.classname == r.requirementId && c.name == r.checkId && c.duration == r.duration
    && (c.failure.None? <==> r.passed)
    && (c.failure.Some? ==> FailureTells(f, r, c.failure.value))
  }

  ghost predicate FailureTells(f: Formats, r: Record, text: string) {
    exists observed ::
      && text == f.redact("expected=" + f.quoted(r.expected) + "; observed=" + observed)
      && (if r.observed.None? then observed == "None" else observed == f.quoted(r.observed.value))
  }

  ghost predicate LineTells(f: Formats, r: Record, line: string) {
    exists observation, result ::
      && line == "| " + r.requirementId + " | " + r.checkId + " | " + f.redact(observation) + " | " + result + " |\n"
      && (if r.passed then result == "PASS" else result == "FAIL")
      && (if r.status == NotObserved then observation == "not observed"
          else if r.observed.None? then observation == "None" else observation == r.observed.value)
  }

  function Joined(lines: seq<string>): string {
    if lines == [] then "" else Joined(lines[..|lines| - 1]) + lines[|lines| - 1]
  }

  ghost predicate ViewsTell(f: Formats, records: seq<Record>, rows: seq<Record>, cases: seq<JunitCase>, lines: seq<string>) {
    && |rows| == |cases| == |lines| == |records|
    && forall i | 0 <= i < |records| ::
         RowTells(f, records[i], rows[i]) && CaseTells(f, records[i], cases[i]) && LineTells(f, records[i], lines[i])
  }

  lemma {:induction false} LinesJoin(f: Formats, records: seq<Record>) returns (lines: seq<string>)
    ensures MarkdownRows(f, records) == Joined(lines) && |lines| == |records|
    ensures forall i | 0 <= i < |records| :: LineTells(f, records[i], lines[i])
  {
    lines := [];
    if records != [] {
      var n := |records| - 1;
      var earlier := LinesJoin(f, records[..n]);
      lines := earlier + [MarkdownRow(f, records[n])];
      assert lines[..n] == earlier;
      LineOf(f, records[n]);
    }
  }

  lemma {:induction false} LineOf(f: Formats, r: Record)
    ensures LineTells(f, r, MarkdownRow(f, r))
  {
    var observation := if r.status == NotObserved then "not observed" else if r.observed.None? then "None" else r.observed.value;
    var result := if r.passed then "PASS" else "FAIL";
    assert MarkdownRow(f, r) == "| " + r.requirementId + " | " + r.checkId + " | " + f.redact(observation) + " | " + result + " |\n";
  }

  lemma {:induction false} CaseIs(f: Formats, r: Record)
    ensures CaseTells(f, r, CaseOf(f)(r))
  {
    var observed := if r.observed.None? then "None" else f.quoted(r.observed.value);
    assert !r.passed ==> CaseOf(f)(r).failure.value == f.redact("expected=" + f.quoted(r.expected) + "; observed=" + observed);
  }

  /** The files hold these entries, and the counts of passed and failed records. */
  ghost predicate PackageHolds(f: Formats, summary: Summary, package: Package, rows: seq<Record>, cases: seq<JunitCase>, lines: seq<string>)
  {
    && AllThere(package) && Json in package && Csv in package && Junit in package && Markdown in package
    && var total, passed := |summary.records|, CountPassed(summary.records);
    && package[Json] == f.json(Payload(f.redact(summary.runId), f.redact(summary.generatedAt), rows))
    && package[Csv] == f.csv(rows) && package[Junit] == f.junit(Suite(total, total - passed, cases))
    && exists head :: IsHead(f, summary.runId, passed, total, head) && package[Markdown] == head + Joined(lines)
  }

  /** The four views hold one true entry for every record, in order. */
  lemma {:induction false} PackageTells(f: Formats, summary: Summary)
    returns (rows: seq<Record>, cases: seq<JunitCase>, lines: seq<string>)
    ensures ViewsTell(f, summary.records, rows, cases, lines)
    ensures PackageHolds(f, summary, Rendered(f, summary), rows, cases, lines)
  {
    rows, cases := Map(Redactor(f), summary.records), Map(CaseOf(f), summary.records);
    lines := LinesJoin(f, summary.records);
    RenderedHolds(f, summary, lines);
    forall i | 0 <= i < |summary.records| ensures RowTells(f, summary.records[i], rows[i]) && CaseTells(f, summary.records[i], cases[i]) {
      CaseIs(f, summary.records[i]);
    }
    hide MarkdownRows, Rendered, LineTells, PackageHolds;
  }

  /** The manifest repeats the run's identity and counts, and names the four views with the digests of their texts. */
  lemma {:induction false} ManifestTells(f: Formats, summary: Summary) returns (m: Manifest)
    ensures var package, total := Rendered(f, summary), |summary.records|;
      && ManifestJson in package && package[ManifestJson] == f.manifest(m)
      && m.runId == summary.runId && m.generatedAt == summary.generatedAt
      && m.total == total && m.passed == CountPassed(summary.records) && m.failed == total - m.passed
      && forall e :: e in m.files <==> e.name != ManifestJson && e.name in package && e.digest == f.digest(package[e.name])
  {
    var views, package := Views(f, summary), Rendered(f, summary);
    m := ManifestOf(f, views, summary);
    HashesOf(f, views, RENDERED);
    forall e ensures e in m.files <==> e.name != ManifestJson && e.name in package && e.digest == f.digest(package[e.name]) {
      assert e.name in RENDERED <==> e.name != ManifestJson;
      assert e in m.files <==> Hashed(f, views, RENDERED, e);
    }
  }

  predicate IsHead(f: Formats, runId: string, passed: nat, total: nat, head: string)
    requires passed <= total
  {
    head == "# Verification summary: " + runId + "\n\n- Passed: " + f.number(passed)
      + "\n- Failed: " + f.number(total - passed) + "\n- Total: " + f.number(total)
      + "\n\n| Requirement | Check | Observation | Result |\n|---|---|---|---|\n"
  }

  lemma {:induction false} RenderedHolds(f: Formats, summary: Summary, lines: seq<string>)
    requires MarkdownRows(f, summary.records) == Joined(lines)
    ensures PackageHolds(f, summary, Rendered(f, summary), Map(Redactor(f), summary.records), Map(CaseOf(f), summary.records), lines)
  {
    hide MarkdownRows, MarkdownHead, CaseOf, Redactor, ManifestOf, CountPassed, IsHead, Joined;
    HeadIs(f, summary);
    assert Rendered(f, summary)[Markdown] == MarkdownHead(f, summary) + Joined(lines);
  }

  lemma {:induction false} HeadIs(f: Formats, summary: Summary)
    ensures IsHead(f, summary.runId, CountPassed(summary.records), |summary.records|, MarkdownHead(f, summary))
  {
  }

  // ------------------------------------------------ render then reconcile

  lemma {:induction false} CountRedacted(f: Formats, records: seq<Record>)
    ensures CountPassed(Map(Redactor(f), records)) == CountPassed(records)
  {
    if records != [] {
      var n := |records| - 1;
      CountRedacted(f, records[..n]);
      assert Map(Redactor(f), records)[..n] == Map(Redactor(f), records[..n]);
    }
  }

  predicate Hashed(f: Formats, package: Package, names: seq<FileName>, e: FileHash) {
    e.name in names && e.name in package && e.digest == f.digest(package[e.name])
  }

  lemma {:induction false} HashesOf(f: Formats, package: Package, names: seq<FileName>)
    ensures forall e :: e in Hashes(f, package, names) <==> Hashed(f, package, names, e)
  {
    if names != [] {
      HashesOf(f, package, names[..|names| - 1]);
    }
  }

  lemma {:induction false} FreshHashesMatch(f: Formats, summary: Summary)
    ensures HashesMatch(f, Rendered(f, summary), Hashes(f, Views(f, summary), RENDERED))
  {
    HashesOf(f, Views(f, summary), RENDERED);
  }

  /** What reading a fresh package back sees. */
  lemma {:induction false} ReadBack(f: Formats, summary: Summary)
    requires f.Faithful()
    ensures var package := Rendered(f, summary);
      && AllThere(package) && ManifestJson in package
      && f.readJson(package[Json]) == Some(Payload(f.redact(summary.runId), f.redact(summary.generatedAt), Map(Redactor(f), summary.records)))
      && f.csvRows(package[Csv]) == Some(|summary.records|)
      && f.readJunit(package[Junit]) == Some((summary.Total(), summary.Failed()))
      && f.readManifest(package[ManifestJson]) == Some(ManifestOf(f, Views(f, summary), summary))
  {
    hide MarkdownHead, MarkdownRows, ManifestOf, RedactRecord, CountPassed;
  }

  lemma {:induction false} RedactedRecords(f: Formats, records: seq<Record>)
    requires forall r | r in records :: r.Valid()
    ensures forall r | r in Map(Redactor(f), records) :: r.Valid() && !PassesUnobserved(r)
  {
    forall i | 0 <= i < |records|
      ensures Map(Redactor(f), records)[i].Valid() && !PassesUnobserved(Map(Redactor(f), records)[i])
    {
      assert records[i] in records;
    }
  }

  lemma {:induction false} ViewsClean(f: Formats, summary: Summary)
    ensures Clean(f, Rendered(f, summary)) <==> Clean(f, Views(f, summary))
  {
    hide MarkdownHead, MarkdownRows, ManifestOf, RedactRecord;
    var views := Views(f, summary);
    assert forall name | name in RENDERED :: name != ManifestJson;
  }

  /**
   A summary of validated records reconciles exactly when redaction leaves its rendered
   texts alone, and then with the summary's own counts; no other check can stop it.
   */
  lemma {:induction false} RenderReconcileIff(f: Formats, summary: Summary)
    requires f.Faithful() && summary.Valid()
    ensures Reconcile(f, Rendered(f, summary)) ==
      if Clean(f, Views(f, summary)) then Ok(Counts(summary.Total(), summary.Failed(), summary.Passed())) else Err(NotRedacted)
  {
    hide Rendered, Views, Hashes, Clean, AllThere, RedactRecord, HashesMatch;
    ReadBack(f, summary);
    CountRedacted(f, summary.records);
    RedactedRecords(f, summary.records);
    FreshHashesMatch(f, summary);
    ViewsClean(f, summary);
  }

  /** No rendered file can be edited unnoticed while the manifest stands: what still reconciles is what was written. */
  lemma {:induction false} EditsDetected(f: Formats, summary: Summary, package: Package, name: FileName)
    requires f.Faithful() && forall a, b | f.digest(a) == f.digest(b) :: a == b
    requires ManifestJson in package && package[ManifestJson] == Rendered(f, summary)[ManifestJson]
    requires Reconcile(f, package).Ok? && name in RENDERED
    ensures name in package && name in Views(f, summary) && package[name] == Views(f, summary)[name]
  {
    hide Views, Hashes, AllThere, Clean;
    AcceptedMatches(f, package);
    ReadBack(f, summary);
    HashesOf(f, Views(f, summary), RENDERED);
    ViewsHold(f, summary, name);
    assert FileHash(name, f.digest(Views(f, summary)[name])) in Hashes(f, Views(f, summary), RENDERED);
  }

  lemma {:induction false} AcceptedMatches(f: Formats, package: Package)
    requires Reconcile(f, package).Ok?
    ensures ManifestJson in package && f.readManifest(package[ManifestJson]).Some?
    ensures HashesMatch(f, package, f.readManifest(package[ManifestJson]).value.files)
  {
    hide HashesMatch, AllThere, Clean;
  }

  lemma {:induction false} ViewsHold(f: Formats, summary: Summary, name: FileName)
    requires name in RENDERED
    ensures name in Views(f, summary)
  {
    hide MarkdownHead, MarkdownRows, RedactRecord;
  }

  // -------------------------------------------------------- the exit rule

  function IdOf(r: Record): string {
    r.checkId
  }

  /** `classify_failures`, before sorting. */
  function ClassifyFailures(records: seq<Record>): (seq<string>, seq<string>) {
    (Map(IdOf, Filter(ExecutedFailure, records)), Map(IdOf, Filter(Unobserved, records)))
  }

  /** The `evidence` command after the summary is built, or could not be: its exit status. */
  method EvidenceCommand(f: Formats, built: Option<Summary>, allowUnobserved: bool) returns (status: nat)
    requires f.Faithful() && (built.Some? ==> built.value.Valid())
    ensures status in {0, 1}
    ensures status == 0 <==>
      && built.Some? && Clean(f, Views(f, built.value))
      && forall r | r in built.value.records :: r.passed || (allowUnobserved && r.status == NotObserved)
  {
    if built.None? {
      return 1;
    }
    hide Views, Rendered, Clean, ClassifyFailures, RedactRecord;
    var summary := built.value;
    var package, result := RenderEvidence(f, summary);
    RenderReconcileIff(f, summary);
    if result.Err? {
      return 1;
    }
    ReadBack(f, summary);
    var payload := f.readJson(package[Json]).value;
    var (executedFailures, unobserved) := ClassifyFailures(payload.records);
    ExitRule(f, summary.records);
    if executedFailures != [] {
      return 1;
    }
    if unobserved != [] && !allowUnobserved {
      return 1;
    }
    status := 0;
  }

  lemma {:induction false} ExitRule(f: Formats, records: seq<Record>)
    requires forall r | r in records :: r.Valid()
    ensures var seen := Map(Redactor(f), records);
      && (ClassifyFailures(seen).0 == [] <==> forall r | r in records :: r.passed || r.status == NotObserved)
      && (ClassifyFailures(seen).1 == [] <==> forall r | r in records :: r.status != NotObserved)
  {
    var seen := Map(Redactor(f), records);
    EmptyFilter(ExecutedFailure, seen);
    EmptyFilter(Unobserved, seen);
    forall r | r in records ensures RedactRecord(f, r) in seen {
      var i :| 0 <= i < |records| && records[i] == r;
      assert seen[i] == RedactRecord(f, r);
    }
    forall s | s in seen ensures exists r :: r in records && s == RedactRecord(f, r) {
      var i :| 0 <= i < |seen| && seen[i] == s;
      assert records[i] in records;
    }
  }

  lemma {:induction false} EmptyFilter(keep: Record -> bool, records: seq<Record>)
    ensures Filter(keep, records) == [] <==> forall r | r in records :: !keep(r)
  {
    var kept := Filter(keep, records);
    if kept != [] {
      assert kept[0] in kept;
    }
  }

  /** One list holds the ids of the checks that ran and failed, the other of those that never ran. */
  lemma {:induction false} ListsTell(records: seq<Record>, id: string)
    ensures id in ClassifyFailures(records).0 <==> exists r :: r in records && r.checkId == id && r.status != NotObserved && !r.passed
    ensures id in ClassifyFailures(records).1 <==> exists r :: r in records && r.checkId == id && r.status == NotObserved
  {
    IdsOf(ExecutedFailure, records, id);
    IdsOf(Unobserved, records, id);
  }

  lemma {:induction false} IdsOf(keep: Record -> bool, records: seq<Record>, id: string)
    ensures id in Map(IdOf, Filter(keep, records)) <==> exists r :: r in records && keep(r) && r.checkId == id
  {
    var kept := Filter(keep, records);
    if r :| r in records && keep(r) && r.checkId == id {
      assert r in kept;
      var i :| 0 <= i < |kept| && kept[i] == r;
      assert Map(IdOf, kept)[i] == id;
    }
    if i :| 0 <= i < |kept| && Map(IdOf, kept)[i] == id {
      assert kept[i] in kept;
    }
  }

  /** The two lists account for every failure in the reconciled counts. */
  lemma {:induction false} ListsAccountForFailures(f: Formats, summary: Summary)
    requires f.Faithful() && summary.Valid()
    ensures var records := Map(Redactor(f), summary.records);
      && f.readJson(Rendered(f, summary)[Json]).Some? && f.readJson(Rendered(f, summary)[Json]).value.records == records
      && |ClassifyFailures(records).0| + |ClassifyFailures(records).1| == summary.Failed()
  {
    hide Rendered, RedactRecord, AllThere;
    ReadBack(f, summary);
    CountRedacted(f, summary.records);
    RedactedRecords(f, summary.records);
    FailuresSplit(Map(Redactor(f), summary.records));
  }
}
