/** From raw JUnit cases to the exit status of the `evidence` command. */
module Command {
  import opened Common
  import opened Records
  import opened Reporting
  import opened Evidence

  /** Every automated test of every requirement was seen to run, and no case of it failed or was skipped. */
  ghost predicate AllVerified(files: seq<JunitFile>, requirements: seq<Requirement>) {
    forall check | check in Checks(requirements) ::
      Observed(files, check.nodeId) && EveryCasePasses(files, check.nodeId)
  }

  /** With unobserved checks waived: whatever ran, passed. */
  ghost predicate NothingRanAndFailed(files: seq<JunitFile>, requirements: seq<Requirement>) {
    forall check | check in Checks(requirements) ::
      Observed(files, check.nodeId) ==> EveryCasePasses(files, check.nodeId)
  }

  /** What one record says about its check. */
  ghost predicate Decides(files: seq<JunitFile>, check: Check, r: Record) {
    && (r.passed <==> Observed(files, check.nodeId) && EveryCasePasses(files, check.nodeId))
    && (r.status == NotObserved <==> !Observed(files, check.nodeId))
  }

  lemma {:induction false} RecordDecides(files: seq<JunitFile>, check: Check, r: Record)
    requires RecordFits(files, check, r)
    ensures Decides(files, check, r)
  {
    hide Observed, EveryCasePasses;
  }

  lemma {:induction false} RecordsDecide(files: seq<JunitFile>, checks: seq<Check>, records: seq<Record>)
    requires |records| == |checks| && forall i | 0 <= i < |checks| :: RecordFits(files, checks[i], records[i])
    ensures (forall r | r in records :: r.passed)
       <==> forall c | c in checks :: Observed(files, c.nodeId) && EveryCasePasses(files, c.nodeId)
    ensures (forall r | r in records :: r.passed || r.status == NotObserved)
       <==> forall c | c in checks :: Observed(files, c.nodeId) ==> EveryCasePasses(files, c.nodeId)
  {
    hide RecordFits, Observed, EveryCasePasses;
    forall i | 0 <= i < |checks| ensures Decides(files, checks[i], records[i]) {
      assert RecordFits(files, checks[i], records[i]);
      RecordDecides(files, checks[i], records[i]);
    }
    assert forall i | 0 <= i < |records| :: records[i] in records && checks[i] in checks;
  }

  /**
   `terra evidence`: exit 0 exactly when the summary could be built, its texts carry no
   credential, and the JUnit cases verify every requirement (or, when unobserved checks are
   waived, contradict none).
   */
  method RunEvidence(f: Formats, runId: string, generatedAt: string, files: seq<JunitFile>,
                     requirements: seq<Requirement>, allowUnobserved: bool)
    returns (status: nat, built: Option<Summary>)
    requires f.Faithful()
    ensures built.Some? <==> files != [] && Checks(requirements) != []
    ensures status == 0 <==>
      && built.Some? && Clean(f, Views(f, built.value))
      && if allowUnobserved then NothingRanAndFailed(files, requirements) else AllVerified(files, requirements)
  {
    hide RecordFits, Views, Clean;
    built := BuildSummary(runId, generatedAt, files, requirements);
    if built.Some? {
      RecordsDecide(files, Checks(requirements), built.value.records);
    }
    status := EvidenceCommand(f, built, allowUnobserved);
  }
}
