/** Verification records and summaries, and what their validators keep. */
module Records {
  import opened Common

  datatype Observation = Seen | NotObserved

  datatype Record = Record(requirementId: string, procedureId: string, checkId: string, expected: string,
                           observed: Option<string>, status: Observation, passed: bool, duration: nat,
                           evidencePath: string)
  {
    /** A check that was not observed has no observation and has not passed. */
    predicate Valid() {
      status == NotObserved ==> observed.None? && !passed
    }
  }

  /** `missing_observation_fails` */
  function Validated(r: Record): (v: Record)
    ensures v.Valid() && (r.Valid() ==> v == r)
    ensures v.passed <==> r.passed && r.status != NotObserved
    ensures v.observed == (if r.status == NotObserved then None else r.observed) && v.status == r.status
    ensures v.requirementId == r.requirementId && v.procedureId == r.procedureId && v.checkId == r.checkId
    ensures v.expected == r.expected && v.duration == r.duration && v.evidencePath == r.evidencePath
  {
    if r.status == NotObserved then r.(observed := None, passed := false) else r
  }

  datatype Summary = Summary(runId: string, generatedAt: string, records: seq<Record>) {
    predicate Valid() {
      records != [] && forall r | r in records :: r.Valid()
    }

    function Total(): nat {
      |records|
    }

    function Passed(): nat {
      CountPassed(records)
    }

    function Failed(): nat {
      |records| - CountPassed(records)
    }
  }

  function CountPassed(records: seq<Record>): (n: nat)
    ensures n <= |records|
  {
    if records == [] then 0
    else CountPassed(records[..|records| - 1]) + if records[|records| - 1].passed then 1 else 0
  }

  /** The records that passed are as many as the count says. */
  lemma {:induction false} PassedCounted(records: seq<Record>)
    ensures CountPassed(records) == |set i | 0 <= i < |records| && records[i].passed|
  {
    var passed := set i | 0 <= i < |records| && records[i].passed;
    if records == [] {
      assert passed == {};
    } else {
      var n := |records| - 1;
      PassedCounted(records[..n]);
      var earlier := set i | 0 <= i < |records[..n]| && records[..n][i].passed;
      assert passed == earlier + (if records[n].passed then {n} else {});
    }
  }

  predicate ExecutedFailure(r: Record) {
    r.status != NotObserved && !r.passed
  }

  predicate Unobserved(r: Record) {
    r.status == NotObserved
  }

  /** Every failed record either ran and failed or never ran, and never both. */
  lemma {:induction false} FailuresSplit(records: seq<Record>)
    requires forall r | r in records :: r.Valid()
    ensures |Filter(ExecutedFailure, records)| + |Filter(Unobserved, records)| == |records| - CountPassed(records)
  {
    if records != [] {
      var n := |records| - 1;
      FailuresSplit(records[..n]);
      assert records[n] in records;
    }
  }
}
