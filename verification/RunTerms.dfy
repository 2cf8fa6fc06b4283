/** What the conditions of a run come to in the environment's own terms: the answers of the driver, git,
    the store and the checks, attempt by attempt (runner/attempt_loop.go, verification.go, work.go). */
module RunTerms {
  import opened Wrappers
  import opened Tasks
  import opened AgentLink
  import opened Verification
  import opened RetryPolicy
  import opened AttemptLoop

  /** The driver's answer that counts: a resumed one that worked or asked, else the fresh one. */
  ghost predicate Counts(c: Config, env: Environment, n: nat, a: Answer) {
    if n == 1 && c.resume && (env(1).resumed.failure.None? || exists i :: 0 <= i < |env(1).resumed.messages| && Asks(env(1).resumed.messages[i]))
    then a == env(1).resumed
    else a == env(n).begun
  }

  lemma AnswerCounts(c: Config, env: Environment, n: nat)
    ensures forall a :: Counts(c, env, n, a) ==> a == Chosen(c, env(n), n)
  {
    assert AnyAsk(env(1).resumed.messages) <==> exists i :: 0 <= i < |env(1).resumed.messages| && Asks(env(1).resumed.messages[i]);
  }

  ghost predicate NoAsk(c: Config, env: Environment, n: nat) {
    forall m :: m in MessagesOf(c, env, n) ==> !Asks(m)
  }

  lemma NoAskIsQuiet(c: Config, env: Environment, n: nat)
    ensures NoAsk(c, env, n) <==> !AskedBefore(c, env, n)
  {
    var ms := MessagesOf(c, env, n);
    if i :| 0 <= i < |ms| && Asks(ms[i]) { assert ms[i] in ms; }
  }

  /** An attempt hears what came since the last take: late messages of the attempt before, those of a
      resumed session, those of a fresh one that was started. */
  lemma HeardInOrder(c: Config, env: Environment, n: nat)
    requires n >= 1
    ensures n > 1 ==> MessagesOf(c, env, n) == env(n - 1).late + env(n).begun.messages
    ensures n == 1 && !c.resume ==> MessagesOf(c, env, n) == env(1).begun.messages
    ensures n == 1 && c.resume && Chosen(c, env(1), 1) == env(1).resumed && !FallsBack(env(1)) ==> MessagesOf(c, env, n) == env(1).resumed.messages
    ensures n == 1 && c.resume && FallsBack(env(1)) ==> MessagesOf(c, env, n) == env(1).resumed.messages + env(1).begun.messages
  {
    assert env(1).resumed.messages + [] == env(1).resumed.messages;
    assert [] + env(1).begun.messages == env(1).begun.messages;
  }

  /** Every check and metric was written down. */
  ghost predicate Written(e: AttemptEnv) {
    forall i :: 0 <= i < |e.checks| ==> e.checks[i].recorded && e.checks[i].readable && forall j :: 0 <= j < |e.checks[i].evals| ==> e.checks[i].evals[j].recorded
  }

  /** When attempt `n` of a writable run passes. */
  lemma WritablePasses(c: Config, env: Environment, n: nat, a: Answer)
    requires !c.readOnly && Counts(c, env, n, a)
    ensures var e := env(n);
            Passes(c, env, n) <==>
            && e.captured && NoAsk(c, env, n) && a.failure.None?
            && e.commit != CommitFails && e.toVerify && e.checks != [] && AllWell(e.checks) && Written(e) && e.recorded && e.toReview
  {
    AnswerCounts(c, env, n);
    NoAskIsQuiet(c, env, n);
    VerificationTells(env(n).checks);
  }

  /** When attempt `n` of a read-only run passes: nothing changed, and the branch where it was. */
  lemma ReadOnlyPasses(c: Config, env: Environment, n: nat, a: Answer)
    requires c.readOnly && Counts(c, env, n, a)
    ensures var e := env(n);
            Passes(c, env, n) <==>
            e.captured && a.failure.None? && e.changes == Some(0) && e.head == Some(c.start) && e.tip == Some(c.start) && e.recorded
  {
    AnswerCounts(c, env, n);
  }

  /** When another attempt follows: after a transient failure that was recorded, or, in a writable run,
      after checks that were run and written down and failed with every program there; with an attempt
      left and the wait over, and no question. */
  lemma AnotherFollows(c: Config, env: Environment, n: nat, a: Answer)
    requires Counts(c, env, n, a)
    ensures var e := env(n);
            Continues(c, env, n) <==>
            && e.captured && (c.readOnly || NoAsk(c, env, n)) && e.recorded && n < c.maxAttempts && e.waited
            && (if a.failure.Some? then c.judge(a.failure.value).kind == Transient
                else && !c.readOnly && e.commit != CommitFails && e.toVerify
                     && (e.checks == [] ==> e.noteRecorded) && Written(e)
                     && !(e.checks != [] && AllWell(e.checks)) && !OneLacks(e.checks)
                     && e.toFailed && e.toReady && e.toRunning)
  {
    AnswerCounts(c, env, n);
    NoAskIsQuiet(c, env, n);
    VerificationTells(env(n).checks);
  }

  /** The class reported by a run that ends in attempt `n`, for each way it can end. */
  lemma ClassReported(c: Config, env: Environment, n: nat, a: Answer)
    requires Counts(c, env, n, a)
    ensures !env(n).captured || (!c.readOnly && !NoAsk(c, env, n)) ==> FinalKind(c, env, n) == NoClass
    ensures env(n).captured && (c.readOnly || NoAsk(c, env, n)) ==>
              var e := env(n);
              && (a.failure.Some? ==>
                    FinalKind(c, env, n) == if e.recorded && !(c.judge(a.failure.value).kind == Transient && n < c.maxAttempts)
                                            then c.judge(a.failure.value).kind else NoClass)
              && (a.failure.None? && c.readOnly ==>
                    FinalKind(c, env, n) == if e.changes == Some(0) && e.head == Some(c.start) && e.tip == Some(c.start) then NoClass else Policy)
              && (a.failure.None? && !c.readOnly && Checked(e) && e.toFailed && !(e.checks != [] && AllWell(e.checks)) ==>
                    FinalKind(c, env, n) == if OneLacks(e.checks) then Environment else if n == c.maxAttempts then ChecksFailed else NoClass)
  {
    AnswerCounts(c, env, n);
    NoAskIsQuiet(c, env, n);
    VerificationTells(env(n).checks);
  }

  /** The class an attempt is recorded with. */
  lemma ClassRecorded(c: Config, env: Environment, n: nat, a: Answer)
    requires Counts(c, env, n, a)
    ensures !c.readOnly && c.toolMissing ==> AttemptKind(c, env, n) == Environment
    ensures !c.readOnly && !c.toolMissing && !NoAsk(c, env, n) ==> AttemptKind(c, env, n) == NoClass
    ensures c.readOnly || (!c.toolMissing && NoAsk(c, env, n)) ==>
              var e := env(n);
              && (a.failure.Some? ==> AttemptKind(c, env, n) == c.judge(a.failure.value).kind)
              && (a.failure.None? && !c.readOnly ==>
                    AttemptKind(c, env, n) == if e.checks != [] && AllWell(e.checks) then NoClass
                                              else if OneLacks(e.checks) then Environment else ChecksFailed)
  {
    AnswerCounts(c, env, n);
    NoAskIsQuiet(c, env, n);
    VerificationTells(env(n).checks);
  }

  /** Which attempts commit, which run checks, and which enter the result. */
  lemma StepsTaken(c: Config, env: Environment, n: nat, a: Answer)
    requires !c.readOnly && !c.toolMissing && Counts(c, env, n, a)
    ensures TriesCommit(c, env, n) <==> env(n).captured && (!NoAsk(c, env, n) || a.failure.None?)
    ensures RunsChecks(c, env, n) <==> env(n).captured && NoAsk(c, env, n) && a.failure.None? && env(n).commit != CommitFails && env(n).toVerify
    ensures Enters(c, env, n) <==>
            && env(n).captured
            && (!NoAsk(c, env, n) ==> env(n).commit != CommitFails)
            && (NoAsk(c, env, n) && a.failure.None? ==>
                  env(n).commit != CommitFails && env(n).toVerify && (env(n).checks == [] ==> env(n).noteRecorded) && Written(env(n)))
  {
    AnswerCounts(c, env, n);
    NoAskIsQuiet(c, env, n);
  }

  /** The evidence an attempt leaves: what its checks recorded, and a run record that says passed exactly
      when they all are well, or a read-only run changed nothing. */
  lemma EvidenceLeft(c: Config, env: Environment, n: nat, a: Answer)
    requires Counts(c, env, n, a) && Enters(c, env, n)
    ensures var e := env(n);
            && (RunsChecks(c, env, n) ==>
                  AttemptEvidence(c, env, n) == (if e.checks == [] then [Evidence(Kind.Note, false, false)] else Records(e.checks))
                                                + if e.recorded then [Evidence(Kind.Run, e.checks != [] && AllWell(e.checks), false)] else [])
            && (!RunsChecks(c, env, n) && c.readOnly && a.failure.None? && e.recorded ==>
                  AttemptEvidence(c, env, n) == [Evidence(Kind.Run, e.changes == Some(0) && e.head == Some(c.start) && e.tip == Some(c.start), false)])
            && (!RunsChecks(c, env, n) && (!c.readOnly || a.failure.Some?) && e.recorded ==>
                  AttemptEvidence(c, env, n) == [Evidence(Kind.Run, false, false)])
  {
    AnswerCounts(c, env, n);
    VerificationTells(env(n).checks);
  }

  /** What an attempt is charged: what the answer that counts reports, number by number. */
  lemma ChargeReports(c: Config, env: Environment, n: nat, a: Answer, k: int)
    requires Counts(c, env, n, a) && (c.readOnly || !c.toolMissing) && k > 0
    ensures a.output.tokensIn == Some(k) ==> Charge(c, env, n).tokensIn == k
    ensures a.output.tokensOut == Some(k) ==> Charge(c, env, n).tokensOut == k
    ensures a.output.tokens == Some(k) ==> Charge(c, env, n).tokens == k
  {
    AnswerCounts(c, env, n);
  }

  /** The driver's calls, attempt by attempt. */
  lemma CallsMade(c: Config, env: Environment, n: nat)
    requires n >= 1 && (c.readOnly || !c.toolMissing)
    ensures n > 1 || !c.resume ==> CallsAt(c, env, n) == [Call(n, false)]
    ensures n == 1 && c.resume ==>
              CallsAt(c, env, 1) == if env(1).resumed.failure.None? || AnyAsk(env(1).resumed.messages) then [Call(1, true)]
                                    else [Call(1, true), Call(1, false)]
  {}

  /** The commit a run answers: that of the last attempt that made one, or where a read-only run started. */
  lemma CommitAnswered(c: Config, env: Environment, n: nat, a: Answer)
    requires n >= 1 && Counts(c, env, n, a)
    ensures c.readOnly && env(n).captured && a.failure.None? ==> CommitUpTo(c, env, n) == Some(c.start)
    ensures !c.readOnly && !c.toolMissing && env(n).captured && (!NoAsk(c, env, n) || a.failure.None?) && env(n).commit.Committed? ==>
              CommitUpTo(c, env, n) == Some(env(n).commit.sha)
    ensures !c.readOnly && env(n).commit == NothingToCommit ==> CommitUpTo(c, env, n) == CommitUpTo(c, env, n - 1)
  {
    AnswerCounts(c, env, n);
    NoAskIsQuiet(c, env, n);
  }

  /** For every ended run: the result's status is empty or the stored one; a read-only run moved, committed
      and checked nothing; the moves are those of the task's graph; all attempts but the last were
      recovered from, and only after a transient failure or failed checks. */
  lemma EveryEnd(c: Config, env: Environment, before: Status, b: Books)
    requires Ended(c, env, before, b)
    ensures !c.readOnly ==> b.result.status in {None, Some(b.stored)} && (b.result.passed <==> b.result.status == Some(Review))
    ensures !c.readOnly ==> b.log.moves != [] && b.log.moves[0] == Running && b.log.moves[|b.log.moves| - 1] == b.stored
    ensures !c.readOnly ==> forall i :: 0 < i < |b.log.moves| ==>
              (b.log.moves[i - 1], b.log.moves[i]) in {(Running, Status.Verify), (Running, Blocked), (Running, Status.Failed), (Status.Verify, Review),
                (Status.Verify, Status.Failed), (Status.Failed, Ready), (Status.Failed, Status.Failed), (Ready, Running), (Ready, Status.Failed)}
    ensures c.readOnly ==> b.stored == before && b.log.moves == [] && b.log.commits == [] && b.log.checked == []
    ensures c.readOnly ==> b.result.status == if b.result.passed then Some(Status.Done) else Some(Status.Failed)
    ensures forall i :: 0 <= i < |b.result.attempts| ==> b.result.attempts[i].number == i + 1
    ensures forall i :: 0 <= i < b.result.attempt - 1 ==>
              i < |b.result.attempts| && b.result.attempts[i].outcome == Recovered && b.result.attempts[i].kind in {Transient, ChecksFailed}
    ensures b.result.attempt <= c.maxAttempts && b.result.question.Some? ==> !c.readOnly && b.stored == Blocked
  {
    forall i | 0 <= i < |b.result.attempts| ensures b.result.attempts[i].number == i + 1 { assert Told(c, env, i + 1, b.result.attempts[i]); }
  }
}
