/** A verification (runner/eval.go, runner/verification.go): the checks of a task, the metrics they
    print, and when it passes. What a check does is an environment. */
module Verification {
  import opened Text

  datatype EvalRun = EvalRun(passed: bool, recorded: bool)

  /** A check's process: its exit, what Go said when it could not run, whether the store took the
      record, and the metric lines of its output, when the output could be read. */
  datatype CheckRun = CheckRun(passed: bool, exitCode: int, note: string, recorded: bool, evals: seq<EvalRun>, readable: bool)

  datatype Kind = Check | Eval | Note | Run

  datatype Evidence = Evidence(kind: Kind, passed: bool, missing: bool)

  predicate Has(value: string, words: string) { IndexFrom(value, words, 0) != -1 }

  /** The words for a program that is not installed. */
  predicate IsEnvironmentFailure(value: string) {
    Has(value, "exit status 127") || Has(value, "exited 127") || Has(value, "command not found")
    || Has(value, "executable file not found")
  }

  function CheckEvidence(c: CheckRun): Evidence {
    Evidence(Check, c.passed, c.exitCode == 127 || IsEnvironmentFailure(Lower(c.note)))
  }

  function EvalEvidence(evals: seq<EvalRun>): (r: seq<Evidence>)
    ensures |r| == |evals| && forall i :: 0 <= i < |r| ==> r[i] == Evidence(Eval, evals[i].passed, false)
  {
    seq(|evals|, i requires 0 <= i < |evals| => Evidence(Eval, evals[i].passed, false))
  }

  /** The records of a whole verification: each check followed by its metrics. */
  function Records(checks: seq<CheckRun>): seq<Evidence> {
    if checks == [] then []
    else
      var last := checks[|checks| - 1];
      Records(checks[..|checks| - 1]) + [CheckEvidence(last)] + EvalEvidence(last.evals)
  }

  predicate AllPassed(evidence: seq<Evidence>) {
    forall i :: 0 <= i < |evidence| && evidence[i].kind in {Check, Eval} ==> evidence[i].passed
  }

  predicate HasCheck(evidence: seq<Evidence>) {
    exists i :: 0 <= i < |evidence| && evidence[i].kind == Check
  }

  /** Nothing went wrong in keeping the records. */
  predicate Kept(c: CheckRun) {
    c.recorded && c.readable && forall i :: 0 <= i < |c.evals| ==> c.evals[i].recorded
  }

  lemma AllPassedConcat(a: seq<Evidence>, b: seq<Evidence>)
    ensures AllPassed(a + b) <==> AllPassed(a) && AllPassed(b)
  {
    forall i | 0 <= i < |a| ensures (a + b)[i] == a[i] {}
    forall i | 0 <= i < |b| ensures (a + b)[|a| + i] == b[i] {}
  }

  lemma OnePassed(e: Evidence)
    requires e.kind == Check
    ensures AllPassed([e]) <==> e.passed
  {
    assert [e][0] == e;
  }

  lemma {:induction false} ChecksAreRecorded(checks: seq<CheckRun>)
    ensures HasCheck(Records(checks)) <==> checks != []
    decreases |checks|
  {
    if checks != [] {
      var front := Records(checks[..|checks| - 1]);
      assert Records(checks)[|front|].kind == Check;
    }
  }

  /** The metrics of one check, recorded one by one. */
  method RecordEvals(evals: seq<EvalRun>) returns (ok: bool, passed: bool, evidence: seq<Evidence>)
    ensures ok <==> forall i :: 0 <= i < |evals| ==> evals[i].recorded
    ensures ok ==> evidence == EvalEvidence(evals) && (passed <==> AllPassed(evidence))
  {
    ok, passed, evidence := true, true, [];
    for j := 0 to |evals|
      invariant forall i :: 0 <= i < j ==> evals[i].recorded
      invariant evidence == EvalEvidence(evals)[..j] && (passed <==> AllPassed(evidence))
    {
      if !evals[j].recorded { return false, false, evidence; }
      AllPassedConcat(evidence, [Evidence(Eval, evals[j].passed, false)]);
      evidence := evidence + [Evidence(Eval, evals[j].passed, false)];
      if !evals[j].passed { passed := false; }
    }
  }

  predicate AllKept(checks: seq<CheckRun>, noteRecorded: bool) {
    if checks == [] then noteRecorded else forall n :: 0 <= n < |checks| ==> Kept(checks[n])
  }

  function EvidenceOf(checks: seq<CheckRun>): seq<Evidence> {
    if checks == [] then [Evidence(Note, false, false)] else Records(checks)
  }

  predicate Missing(evidence: seq<Evidence>) {
    exists i :: 0 <= i < |evidence| && NotInstalled(evidence[i])
  }

  /** It passes exactly when there was a check and every check and metric record passed. */
  method RunVerification(checks: seq<CheckRun>, noteRecorded: bool) returns (ok: bool, passed: bool, evidence: seq<Evidence>)
    ensures ok <==> AllKept(checks, noteRecorded)
    ensures ok ==> evidence == EvidenceOf(checks)
    ensures ok ==> (passed <==> HasCheck(evidence) && AllPassed(evidence))
  {
    if |checks| == 0 { return noteRecorded, false, [Evidence(Note, false, false)]; }
    ok, passed, evidence := true, true, [];
    for n := 0 to |checks|
      invariant forall i :: 0 <= i < n ==> Kept(checks[i])
      invariant evidence == Records(checks[..n]) && (passed <==> AllPassed(evidence))
    {
      var check := checks[n];
      if !check.recorded { return false, false, evidence; }
      var before := evidence;
      evidence := evidence + [CheckEvidence(check)];
      AllPassedConcat(before, [CheckEvidence(check)]);
      OnePassed(CheckEvidence(check));
      if !check.passed { passed := false; }
      if !check.readable { return false, false, evidence; }
      var kept, good, records := RecordEvals(check.evals);
      if !kept { return false, false, evidence; }
      AllPassedConcat(evidence, records);
      evidence := evidence + records;
      passed := passed && good;
      assert checks[..n + 1][..n] == checks[..n];
    }
    assert checks[..|checks|] == checks;
    ChecksAreRecorded(checks);
  }

  predicate NotInstalled(e: Evidence) { e.kind == Check && !e.passed && e.missing }

  /** Whether a check failed for want of a program. */
  method MissingTool(evidence: seq<Evidence>) returns (r: bool)
    ensures r <==> Missing(evidence)
  {
    for i := 0 to |evidence|
      invariant forall j :: 0 <= j < i ==> !NotInstalled(evidence[j])
    {
      if evidence[i].kind != Check || evidence[i].passed { continue; }
      if evidence[i].missing { return true; }
    }
    r := false;
  }

  // The same in the checks' own terms

  lemma HasIsContains(value: string, words: string)
    ensures Has(value, words) <==> Contains(value, words)
  {
    if i :| OccursAt(value, words, i) { assert 0 <= i && IndexFrom(value, words, 0) != -1; }
  }

  /** The words for a program that is not installed, and no others. */
  lemma NotInstalledWords(value: string)
    ensures IsEnvironmentFailure(value) <==>
            || Contains(value, "exit status 127") || Contains(value, "exited 127")
            || Contains(value, "command not found") || Contains(value, "executable file not found")
  {
    var a, b, c, d := "exit status 127", "exited 127", "command not found", "executable file not found";
    HasIsContains(value, a);
    HasIsContains(value, b);
    HasIsContains(value, c);
    HasIsContains(value, d);
  }

  predicate Lacks(c: CheckRun) { c.exitCode == 127 || IsEnvironmentFailure(Lower(c.note)) }

  /** A check's own exit decides whether it passed, and its exit and note whether its program was there. */
  lemma CheckIsTold(c: CheckRun)
    ensures CheckEvidence(c).kind == Check && CheckEvidence(c).passed == c.passed && CheckEvidence(c).missing == Lacks(c)
  {}

  ghost predicate AllWell(checks: seq<CheckRun>) {
    forall i :: 0 <= i < |checks| ==> checks[i].passed && forall j :: 0 <= j < |checks[i].evals| ==> checks[i].evals[j].passed
  }

  ghost predicate OneLacks(checks: seq<CheckRun>) {
    exists i :: 0 <= i < |checks| && !checks[i].passed && Lacks(checks[i])
  }

  lemma EvalsPass(evals: seq<EvalRun>)
    ensures AllPassed(EvalEvidence(evals)) <==> forall j :: 0 <= j < |evals| ==> evals[j].passed
    ensures !Missing(EvalEvidence(evals))
  {
    assert forall j :: 0 <= j < |evals| ==> EvalEvidence(evals)[j] == Evidence(Eval, evals[j].passed, false);
  }

  lemma MissingConcat(a: seq<Evidence>, b: seq<Evidence>)
    ensures Missing(a + b) <==> Missing(a) || Missing(b)
  {
    forall i | 0 <= i < |a| ensures (a + b)[i] == a[i] {}
    forall i | 0 <= i < |b| ensures (a + b)[|a| + i] == b[i] {}
    if i :| 0 <= i < |a + b| && NotInstalled((a + b)[i]) {
      assert if i < |a| then NotInstalled(a[i]) else NotInstalled(b[i - |a|]);
    }
  }

  lemma {:induction false} RecordsTell(checks: seq<CheckRun>)
    ensures AllPassed(Records(checks)) <==> AllWell(checks)
    ensures Missing(Records(checks)) <==> OneLacks(checks)
    decreases |checks|
  {
    if checks != [] {
      var n := |checks| - 1;
      var front, last := checks[..n], checks[n];
      RecordsTell(front);
      var one := [CheckEvidence(last)];
      assert one[0] == CheckEvidence(last);
      OnePassed(CheckEvidence(last));
      EvalsPass(last.evals);
      AllPassedConcat(Records(front), one);
      AllPassedConcat(Records(front) + one, EvalEvidence(last.evals));
      MissingConcat(Records(front), one);
      MissingConcat(Records(front) + one, EvalEvidence(last.evals));
      LastTells(checks);
    }
  }

  lemma LastTells(checks: seq<CheckRun>)
    requires checks != []
    ensures var n := |checks| - 1;
            && (AllWell(checks) <==> AllWell(checks[..n]) && checks[n].passed && forall j :: 0 <= j < |checks[n].evals| ==> checks[n].evals[j].passed)
            && (OneLacks(checks) <==> OneLacks(checks[..n]) || (!checks[n].passed && Lacks(checks[n])))
  {
    var n := |checks| - 1;
    assert forall i :: 0 <= i < n ==> checks[..n][i] == checks[i];
    if i :| 0 <= i < |checks| && !checks[i].passed && Lacks(checks[i]) {
      assert i < n ==> !checks[..n][i].passed && Lacks(checks[..n][i]);
    }
    if i :| 0 <= i < n && !checks[..n][i].passed && Lacks(checks[..n][i]) { assert !checks[i].passed; }
  }

  /** A verification passes exactly when there is a check and all checks and metrics passed; a program is
      missing exactly when a check failed for want of it. */
  lemma VerificationTells(checks: seq<CheckRun>)
    ensures HasCheck(EvidenceOf(checks)) && AllPassed(EvidenceOf(checks)) <==> checks != [] && AllWell(checks)
    ensures Missing(EvidenceOf(checks)) <==> OneLacks(checks)
  {
    RecordsTell(checks);
    ChecksAreRecorded(checks);
  }
}
