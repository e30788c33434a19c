/** src/domain/qualityGates.ts: the gates run in order, and the first failure blocks the rest. */
module QualityGates {
  import opened Common

  datatype Gate = Gate(id: string, command: string)

  datatype GateStatus = Passed | Failed | Skipped

  /** What the coverage command left behind. */
  datatype CoverageReport = Missing | Unparsable | Percent(lines: real)

  /** What a command would do if it were run. */
  datatype Verdict = Verdict(exitCode: int, coverage: CoverageReport)

  datatype GateResult = GateResult(id: string, command: string, status: GateStatus)

  function EvaluateCoverageResult(report: CoverageReport, threshold: Option<real>): GateStatus {
    match report
    case Missing => Failed
    case Unparsable => Failed
    case Percent(lines) => if threshold.Some? && lines < threshold.value then Failed else Passed
  }

  /** The status of a gate whose command ran. */
  function StatusOfRun(gate: Gate, verdict: Verdict, threshold: Option<real>): GateStatus {
    if verdict.exitCode != 0 then Failed
    else if gate.id == "coverage" then EvaluateCoverageResult(verdict.coverage, threshold)
    else Passed
  }

  predicate HasFailedQualityGate(results: seq<GateResult>) {
    exists i :: 0 <= i < |results| && results[i].status == Failed
  }

  predicate QualityGatesPassed(results: seq<GateResult>) {
    !HasFailedQualityGate(results)
  }

  /** Every gate with a command ran and passed, and every gate without one was skipped. */
  ghost predicate AllCommandsPassed(gates: seq<Gate>, results: seq<GateResult>) {
    && |results| == |gates|
    && forall i :: 0 <= i < |gates| ==>
         && results[i].id == gates[i].id
         && results[i].command == gates[i].command
         && results[i].status == if gates[i].command == "" then Skipped else Passed
  }

  /** What is asked of a command: it exits with 0, and the one of the coverage gate leaves a readable report
      that is not below the threshold, if there is one. */
  ghost predicate Succeeds(gate: Gate, verdict: Verdict, threshold: Option<real>) {
    && verdict.exitCode == 0
    && (gate.id == "coverage" ==>
          && verdict.coverage.Percent?
          && (threshold.None? || verdict.coverage.lines >= threshold.value))
  }

  lemma PassedMeansSucceeds(gate: Gate, verdict: Verdict, threshold: Option<real>)
    ensures StatusOfRun(gate, verdict, threshold) == if Succeeds(gate, verdict, threshold) then Passed else Failed
  {
  }

  /** The gate that fails, if the gates before `n` contain one. */
  ghost predicate FirstFailure(gates: seq<Gate>, verdict: nat -> Verdict, threshold: Option<real>, n: nat, f: nat)
    requires n <= |gates|
  {
    && f < n
    && gates[f].command != "" && !Succeeds(gates[f], verdict(f), threshold)
    && forall i :: 0 <= i < f ==> gates[i].command == "" || Succeeds(gates[i], verdict(i), threshold)
  }

  /** `ran` lists the gates whose command was started: exactly those with a command up to and including
      the first that does not succeed. No result is failed exactly when every command succeeds. */
  method RunQualityGates(gates: seq<Gate>, verdict: nat -> Verdict, threshold: Option<real>)
    returns (results: seq<GateResult>, ran: set<nat>)
    ensures |results| == |gates|
    ensures forall i :: 0 <= i < |gates| ==> results[i].id == gates[i].id && results[i].command == gates[i].command
    ensures QualityGatesPassed(results) <==> AllCommandsPassed(gates, results)
    ensures QualityGatesPassed(results) <==>
            forall i :: 0 <= i < |gates| && gates[i].command != "" ==> Succeeds(gates[i], verdict(i), threshold)
    ensures forall i :: 0 <= i < |gates| ==> (i in ran <==> results[i].status != Skipped)
    ensures forall i :: i in ran ==>
              && i < |gates| && gates[i].command != ""
              && results[i].status == if Succeeds(gates[i], verdict(i), threshold) then Passed else Failed
    ensures QualityGatesPassed(results) ==> forall i :: 0 <= i < |gates| ==> (i in ran <==> gates[i].command != "")
    ensures !QualityGatesPassed(results) ==>
              exists f: nat :: FirstFailure(gates, verdict, threshold, |gates|, f)
                          && forall i :: 0 <= i < |gates| ==> (i in ran <==> i <= f && gates[i].command != "")
  {
    results, ran := [], {};
    var failedGate: Option<nat> := None;
    for i := 0 to |gates|
      invariant |results| == i
      invariant forall j :: 0 <= j < i ==> results[j].id == gates[j].id && results[j].command == gates[j].command
      invariant failedGate.None? ==>
                  forall j :: 0 <= j < i ==>
                    && results[j].status == (if gates[j].command == "" then Skipped else Passed)
                    && (gates[j].command == "" || Succeeds(gates[j], verdict(j), threshold))
      invariant failedGate.Some? ==>
                  && FirstFailure(gates, verdict, threshold, i, failedGate.value)
                  && results[failedGate.value].status == Failed
                  && (forall j :: 0 <= j < failedGate.value ==> (j in ran <==> gates[j].command != ""))
                  && forall j :: failedGate.value < j < i ==> results[j].status == Skipped
      invariant forall j :: 0 <= j < i ==> (j in ran <==> results[j].status != Skipped)
      invariant forall j :: j in ran ==>
                  && j < i && gates[j].command != ""
                  && results[j].status == if Succeeds(gates[j], verdict(j), threshold) then Passed else Failed
    {
      var gate := gates[i];
      if failedGate.Some? || gate.command == "" {
        results := results + [GateResult(gate.id, gate.command, Skipped)];
      } else {
        PassedMeansSucceeds(gate, verdict(i), threshold);
        var status := StatusOfRun(gate, verdict(i), threshold);
        results, ran := results + [GateResult(gate.id, gate.command, status)], ran + {i};
        if status == Failed {
          failedGate := Some(i);
        }
      }
    }
  }
}
