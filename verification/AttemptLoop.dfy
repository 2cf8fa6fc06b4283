/** The loop that drives a task through its attempts (runner/attempt_loop.go, verification.go, work.go,
    evidence.go). Whatever the driver, git, the task store and the record files answer, attempt by
    attempt, is an environment; any of it may fail. */
module AttemptLoop {
  import opened Wrappers
  import opened Tasks
  import opened AgentLink
  import opened Verification
  import opened RetryPolicy
  import Redact

  /** One driver call: what it reports, how it failed, and the messages handled before it returned. */
  datatype Answer = Answer(output: Output, failure: Option<Failure>, messages: seq<Message>)

  datatype Commit = CommitFails | NothingToCommit | Committed(sha: nat)

  /** What the n-th attempt meets. `late` are messages handled after its question was taken. */
  datatype AttemptEnv = AttemptEnv(
    resumed: Answer, begun: Answer, captured: bool, late: seq<Message>,
    commit: Commit, checks: seq<CheckRun>, noteRecorded: bool, recorded: bool,
    toVerify: bool, toReview: bool, toBlocked: bool, toFailed: bool, toReady: bool, toRunning: bool, failTo: bool,
    waited: bool, changes: Option<nat>, head: Option<nat>, tip: Option<nat>)

  type Environment = nat -> AttemptEnv

  /** `judge` is RetryPolicy.Classify in a run of the runner; nothing here depends on the words it looks for. */
  datatype Config = Config(readOnly: bool, maxAttempts: nat, resume: bool, toolMissing: bool, estimate: int -> real, start: nat,
                           judge: Failure -> Judged)

  datatype Outcome = DidPass | DidFail | Recovered

  datatype Attempt = Attempt(number: nat, outcome: Outcome, kind: Class, spent: Spent)

  datatype Result = Result(status: Option<Status>, passed: bool, attempt: nat, attempts: seq<Attempt>, spent: Spent,
                           kind: Class, commit: Option<nat>, question: Option<Question>, evidence: seq<Evidence>)

  datatype Call = Call(attempt: nat, resumed: bool)

  /** What happened, beside the result: the driver's calls, the task's moves, the attempts that tried a
      commit, the attempts that ran checks, and the last verification. */
  datatype Log = Log(calls: seq<Call>, moves: seq<Status>, commits: seq<nat>, checked: seq<nat>, verified: seq<Evidence>)

  datatype Books = Books(stored: Status, result: Result, log: Log)

  // What the agent said

  /** A failed resume that left no question is followed by a fresh session in the same attempt. */
  predicate FallsBack(e: AttemptEnv) {
    e.resumed.failure.Some? && !AnyAsk(e.resumed.messages)
  }

  predicate Resumes(c: Config, n: nat) { n == 1 && c.resume }

  function Chosen(c: Config, e: AttemptEnv, n: nat): Answer {
    if Resumes(c, n) && !FallsBack(e) then e.resumed else e.begun
  }

  /** The messages handled between the question taken before attempt `n` and the one taken after its driver. */
  function MessagesOf(c: Config, env: Environment, n: nat): seq<Message> {
    Late(env, n)
    + (if Resumes(c, n) then env(n).resumed.messages else [])
    + (if Resumes(c, n) && !FallsBack(env(n)) then [] else env(n).begun.messages)
  }

  /** The messages handled between the last take and attempt `n`. */
  function Late(env: Environment, n: nat): seq<Message> { if n > 1 then env(n - 1).late else [] }

  predicate AskedBefore(c: Config, env: Environment, n: nat) { AnyAsk(MessagesOf(c, env, n)) }

  /** How attempt `n`'s driver failed, as the retry policy judges it. */
  function FailureOf(c: Config, env: Environment, n: nat): Option<Judged> {
    var failure := Chosen(c, env(n), n).failure;
    if failure.None? then None else Some(c.judge(failure.value))
  }

  /** A writable run for which a check's program is not there: no driver is called. */
  predicate NoTool(c: Config) { !c.readOnly && c.toolMissing }

  // What holds of every result

  /** What attempt `n` costs: what its own driver call reports, and never what a failed resume did. */
  function Charge(c: Config, env: Environment, n: nat): Spent {
    if NoTool(c) then NOTHING else SpentBy(Chosen(c, env(n), n).output, c.estimate)
  }

  function Charged(c: Config, env: Environment, n: nat): Spent {
    if n == 0 then NOTHING else Plus(Charged(c, env, n - 1), Charge(c, env, n))
  }

  /** The driver's calls in attempt `n`: one, and one more only after a resume that failed. */
  function CallsAt(c: Config, env: Environment, n: nat): seq<Call> {
    if NoTool(c) then []
    else (if Resumes(c, n) then [Call(n, true)] else []) + (if Resumes(c, n) && !FallsBack(env(n)) then [] else [Call(n, false)])
  }

  function CallsUpTo(c: Config, env: Environment, n: nat): seq<Call> {
    if n == 0 then [] else CallsUpTo(c, env, n - 1) + CallsAt(c, env, n)
  }

  /** The work of attempt `n` is committed: after a question, or after a driver that did not fail. */
  predicate TriesCommit(c: Config, env: Environment, n: nat) {
    !c.readOnly && !c.toolMissing && env(n).captured && (AskedBefore(c, env, n) || FailureOf(c, env, n).None?)
  }

  predicate RunsChecks(c: Config, env: Environment, n: nat) {
    TriesCommit(c, env, n) && !AskedBefore(c, env, n) && !env(n).commit.CommitFails? && env(n).toVerify
  }

  /** Attempt `n` enters the result: unless capturing, committing or checking itself failed. */
  predicate Enters(c: Config, env: Environment, n: nat) {
    || NoTool(c)
    || (env(n).captured
        && (TriesCommit(c, env, n) ==> !env(n).commit.CommitFails?)
        && (TriesCommit(c, env, n) && !AskedBefore(c, env, n) ==> env(n).toVerify && AllKept(env(n).checks, env(n).noteRecorded)))
  }

  /** The class attempt `n` enters the result with. */
  function AttemptKind(c: Config, env: Environment, n: nat): Class {
    if NoTool(c) then Environment
    else if !c.readOnly && AskedBefore(c, env, n) then NoClass
    else if FailureOf(c, env, n).Some? then FailureOf(c, env, n).value.kind
    else if c.readOnly then
      if Untouched(c, env(n)) then NoClass else Policy
    else VerifiedKind(ChecksPass(env(n)), EvidenceOf(env(n).checks))
  }

  /** The run record of an attempt, when it was recorded. */
  function RunRecord(e: AttemptEnv, passed: bool): seq<Evidence> {
    if e.recorded then [Evidence(Kind.Run, passed, false)] else []
  }

  /** The evidence attempt `n` leaves: its checks and metrics, and its run record. */
  function AttemptEvidence(c: Config, env: Environment, n: nat): seq<Evidence> {
    var e := env(n);
    if !Enters(c, env, n) then []
    else if RunsChecks(c, env, n) then EvidenceOf(e.checks) + RunRecord(e, ChecksPass(e))
    else RunRecord(e, c.readOnly && FailureOf(c, env, n).None? && Untouched(c, e))
  }

  function EvidenceUpTo(c: Config, env: Environment, n: nat): seq<Evidence> {
    if n == 0 then [] else EvidenceUpTo(c, env, n - 1) + AttemptEvidence(c, env, n)
  }

  /** The commit of the result after `n` attempts: the last that was made, or where a read-only run started. */
  function CommitUpTo(c: Config, env: Environment, n: nat): Option<nat> {
    if n == 0 then None
    else if c.readOnly && env(n).captured && FailureOf(c, env, n).None? then Some(c.start)
    else if TriesCommit(c, env, n) && env(n).commit.Committed? then Some(env(n).commit.sha)
    else CommitUpTo(c, env, n - 1)
  }

  /** An attempt that another one may follow. */
  predicate Again(a: Attempt) {
    a.outcome == Recovered && a.kind in {Transient, ChecksFailed}
  }

  /** `a` is what attempt `n` was: its number, its class and its cost; passed exactly when it has no class. */
  ghost predicate Told(c: Config, env: Environment, n: nat, a: Attempt) {
    && a.number == n && a.kind == AttemptKind(c, env, n) && a.spent == Charge(c, env, n)
    && (a.outcome == DidPass <==> a.kind == NoClass) && (a.outcome == Recovered ==> Again(a))
  }

  /** The attempts in order, and all of the first `again` recovered from. */
  ghost predicate AllTold(c: Config, env: Environment, attempts: seq<Attempt>, again: nat) {
    && (forall i :: 0 <= i < |attempts| ==> Told(c, env, i + 1, attempts[i]))
    && (forall i :: 0 <= i < |attempts| && i < again ==> Again(attempts[i]))
  }

  /** Commits up to attempt `n`, checks up to attempt `m`: exactly those. */
  ghost predicate Logged(c: Config, env: Environment, log: Log, commit: Option<nat>, n: nat, m: nat) {
    && commit == CommitUpTo(c, env, n)
    && (forall k :: k in log.commits <==> 1 <= k <= n && TriesCommit(c, env, k))
    && (forall k :: k in log.checked <==> 1 <= k <= m && RunsChecks(c, env, k))
  }

  predicate MoveAllowed(a: Status, b: Status) {
    match a
    case Running => b in {Verify, Blocked, Failed}
    case Verify => b in {Review, Failed}
    case Failed => b in {Ready, Failed}
    case Ready => b in {Running, Failed}
    case _ => false
  }

  /** The task's history in this run, from running on. */
  ghost predicate History(moves: seq<Status>) {
    && moves != [] && moves[0] == Running
    && forall i :: 0 < i < |moves| ==> MoveAllowed(moves[i - 1], moves[i])
  }

  /** A read-only run moves, commits and checks nothing; any other is where its last move put it. */
  ghost predicate Place(c: Config, before: Status, b: Books) {
    if c.readOnly then b.stored == before && b.log.moves == [] && b.log.commits == [] && b.log.checked == []
    else History(b.log.moves) && b.log.moves[|b.log.moves| - 1] == b.stored
  }

  ghost predicate Open(r: Result) {
    r.status == None && !r.passed && r.question == None && r.kind == NoClass
  }

  /** What is written down of the first `n` attempts: the attempts, the total they cost, the driver's
      calls, the commits and the checks, exactly. */
  ghost predicate Recorded(c: Config, env: Environment, b: Books, n: nat) {
    && b.result.attempt == n <= c.maxAttempts
    && |b.result.attempts| == (if n >= 1 && !Enters(c, env, n) then n - 1 else n)
    && AllTold(c, env, b.result.attempts, if n == 0 then 0 else n - 1)
    && b.result.spent == Charged(c, env, n)
    && b.log.calls == CallsUpTo(c, env, n)
    && Logged(c, env, b.log, b.result.commit, n, n)
  }

  /** `n` attempts are over and recorded, and another may start. */
  ghost predicate Between(c: Config, env: Environment, before: Status, b: Books, n: nat) {
    && Open(b.result) && Recorded(c, env, b, n) && |b.result.attempts| == n < c.maxAttempts && b.result.evidence == EvidenceUpTo(c, env, n)
    && AllTold(c, env, b.result.attempts, n)
    && Place(c, before, b) && (!c.readOnly ==> b.stored == Running)
  }

  /** Attempt `n` has captured its output, and is not recorded yet. */
  ghost predicate Unrecorded(c: Config, env: Environment, before: Status, b: Books, n: nat) {
    && Open(b.result) && b.result.attempt == n == |b.result.attempts| + 1 && n <= c.maxAttempts
    && AllTold(c, env, b.result.attempts, n)
    && b.result.spent == Charged(c, env, n)
    && b.log.calls == CallsUpTo(c, env, n)
    && Place(c, before, b)
  }

  /** Nothing else of attempt `n` has happened yet. */
  ghost predicate Begun(c: Config, env: Environment, before: Status, b: Books, n: nat) {
    Unrecorded(c, env, before, b, n) && (!c.readOnly ==> b.stored == Running) && Logged(c, env, b.log, b.result.commit, n - 1, n - 1)
    && b.result.evidence == EvidenceUpTo(c, env, n - 1)
  }

  /** Attempt `n` is recorded; the task has not been moved to where the run ends. */
  ghost predicate Closing(c: Config, env: Environment, before: Status, b: Books, n: nat) {
    Open(b.result) && Recorded(c, env, b, n) && |b.result.attempts| == n >= 1 && Place(c, before, b)
  }

  // How a run ends

  /** The result's status is empty or the stored one; passing means review after a verification with
      a check in which everything passed. */
  ghost predicate Agrees(b: Books) {
    && (b.result.status.None? || b.result.status == Some(b.stored))
    && (b.result.passed <==> b.result.status == Some(Review))
    && (b.result.passed ==> HasCheck(b.log.verified) && AllPassed(b.log.verified) && b.result.question == None)
    && (b.result.question.Some? <==> b.result.status == Some(Blocked))
  }

  predicate Untouched(c: Config, e: AttemptEnv) {
    e.changes == Some(0) && e.head == Some(c.start) && e.tip == Some(c.start)
  }

  ghost predicate AgreesReadOnly(c: Config, env: Environment, b: Books) {
    && b.result.question == None
    && b.result.status in {Some(Status.Done), Some(Status.Failed)}
    && (b.result.passed <==> b.result.status == Some(Status.Done))
    && (b.result.passed ==> Untouched(c, env(b.result.attempt)))
  }

  /** A read-only run whose driver succeeded and which changed something is refused by policy. */
  ghost predicate Refused(c: Config, env: Environment, b: Books) {
    var n := b.result.attempt;
    n >= 1 && env(n).captured && FailureOf(c, env, n).None? && !Untouched(c, env(n)) ==>
      b.result.kind == Policy && !b.result.passed
  }

  /** Attempt `n` was captured, and no question stops it. */
  ghost predicate Settling(c: Config, env: Environment, n: nat) {
    !NoTool(c) && env(n).captured && (c.readOnly || !AskedBefore(c, env, n))
  }

  ghost predicate Ended(c: Config, env: Environment, before: Status, b: Books) {
    && (if c.readOnly then AgreesReadOnly(c, env, b) else Agrees(b))
    && Recorded(c, env, b, b.result.attempt) && b.result.evidence == EvidenceUpTo(c, env, b.result.attempt)
    && Place(c, before, b)
  }

  /** The run stopped for the agent's question: no failure, the task blocked. */
  ghost predicate NeedsInput(b: Books, err: bool) {
    !err && b.result.question.Some? && b.result.status == Some(Blocked) && b.stored == Blocked
  }

  /** Attempt `k` heard a question: it is the last, no check ran in it, and the run needs input unless
      capturing, committing, recording or moving failed. */
  ghost predicate AskEnds(c: Config, env: Environment, b: Books, err: bool) {
    forall k: nat :: 1 <= k <= b.result.attempt && AskedBefore(c, env, k) ==>
      && k == b.result.attempt && k !in b.log.checked
      && (NeedsInput(b, err) || !env(k).captured || env(k).commit.CommitFails? || !env(k).recorded || !env(k).toBlocked)
  }

  /** Nothing was asked in the first `n` attempts. */
  ghost predicate Quiet(c: Config, env: Environment, n: nat) {
    forall k: nat :: 1 <= k <= n ==> !AskedBefore(c, env, k)
  }

  // What the records of a run say

  function Sum(attempts: seq<Attempt>): Spent {
    if attempts == [] then NOTHING else Plus(Sum(attempts[..|attempts| - 1]), attempts[|attempts| - 1].spent)
  }

  ghost predicate Priced(c: Config, env: Environment, attempts: seq<Attempt>) {
    forall i :: 0 <= i < |attempts| ==> attempts[i].spent == Charge(c, env, i + 1)
  }

  lemma ToldIsPriced(c: Config, env: Environment, attempts: seq<Attempt>, again: nat)
    requires AllTold(c, env, attempts, again)
    ensures Priced(c, env, attempts)
  {
    forall i | 0 <= i < |attempts| ensures attempts[i].spent == Charge(c, env, i + 1) { assert Told(c, env, i + 1, attempts[i]); }
  }

  lemma {:induction false} SumIsCharged(c: Config, env: Environment, attempts: seq<Attempt>)
    requires Priced(c, env, attempts)
    ensures Sum(attempts) == Charged(c, env, |attempts|)
    decreases |attempts|
  {
    if attempts != [] { SumIsCharged(c, env, attempts[..|attempts| - 1]); }
  }

  /** Conservation: the totals are the sum over the result's attempts, and exceed it by exactly the
      last driver's output when that attempt did not enter the result. */
  lemma TotalsAreConserved(c: Config, env: Environment, b: Books, n: nat)
    requires Recorded(c, env, b, n)
    ensures n == 0 || Enters(c, env, n) ==> b.result.spent == Sum(b.result.attempts)
    ensures n >= 1 && !Enters(c, env, n) ==>
              b.result.spent == Plus(Sum(b.result.attempts), SpentBy(Chosen(c, env(n), n).output, c.estimate))
  {
    ToldIsPriced(c, env, b.result.attempts, if n == 0 then 0 else n - 1);
    SumIsCharged(c, env, b.result.attempts);
  }

  /** The driver is called once an attempt, and once more if and only if a resume failed without a
      question; never when a program is missing. */
  lemma {:induction false} CallsAreCounted(c: Config, env: Environment, n: nat)
    ensures |CallsUpTo(c, env, n)| == if NoTool(c) then 0 else n + (if n >= 1 && c.resume && FallsBack(env(1)) then 1 else 0)
  {
    if n > 0 { CallsAreCounted(c, env, n - 1); }
  }

  lemma AnyAskConcat(a: seq<Message>, b: seq<Message>)
    ensures AnyAsk(a + b) <==> AnyAsk(a) || AnyAsk(b)
  {
    forall i | 0 <= i < |a| && Asks(a[i]) ensures AnyAsk(a + b) { assert Asks((a + b)[i]); }
    forall i | 0 <= i < |b| && Asks(b[i]) ensures AnyAsk(a + b) { assert Asks((a + b)[|a| + i]); }
    if i :| 0 <= i < |a + b| && Asks((a + b)[i]) {
      assert if i < |a| then Asks(a[i]) else Asks(b[i - |a|]);
    }
  }

  /** What an ask before attempt `n`'s driver returned can have been in. */
  lemma MessagesAre(c: Config, env: Environment, n: nat)
    requires n >= 1
    ensures AskedBefore(c, env, n) <==>
            || (n > 1 && AnyAsk(env(n - 1).late))
            || (Resumes(c, n) && AnyAsk(env(n).resumed.messages))
            || (!(Resumes(c, n) && !FallsBack(env(n))) && AnyAsk(env(n).begun.messages))
  {
    var late := if n > 1 then env(n - 1).late else [];
    var resumed := if Resumes(c, n) then env(n).resumed.messages else [];
    AnyAskConcat(late, resumed);
    AnyAskConcat(late + resumed, if Resumes(c, n) && !FallsBack(env(n)) then [] else env(n).begun.messages);
  }

  /** The last words of an attempt's messages are those of the latest part that has any. */
  lemma WordsOf(c: Config, env: Environment, n: nat)
    requires n >= 1
    ensures LastWords(MessagesOf(c, env, n)) ==
            var resumed, begun := LastWords(env(n).resumed.messages), LastWords(env(n).begun.messages);
            if !(Resumes(c, n) && !FallsBack(env(n))) && begun.Some? then begun
            else if Resumes(c, n) && resumed.Some? then resumed
            else LastWords(Late(env, n))
  {
    var resumed := if Resumes(c, n) then env(n).resumed.messages else [];
    LastWordsConcat(Late(env, n), resumed);
    LastWordsConcat(Late(env, n) + resumed, if Resumes(c, n) && !FallsBack(env(n)) then [] else env(n).begun.messages);
  }

  // When a run goes on, and when it passes

  /** The work was committed, checked and recorded, and the checks answered. */
  predicate Checked(e: AttemptEnv) {
    !e.commit.CommitFails? && e.toVerify && AllKept(e.checks, e.noteRecorded) && e.recorded
  }

  predicate ChecksPass(e: AttemptEnv) {
    HasCheck(EvidenceOf(e.checks)) && AllPassed(EvidenceOf(e.checks))
  }

  /** The class of an attempt whose checks ran. */
  function VerifiedKind(passed: bool, evidence: seq<Evidence>): Class {
    if passed then NoClass
    else if Missing(evidence) then Environment
    else ChecksFailed
  }

  /** A transient failure of the driver, with attempts left. */
  predicate Retries(c: Config, e: AttemptEnv, n: nat, f: Judged) {
    e.recorded && f.retryable && n < c.maxAttempts && e.waited
  }

  /** Checks that ran, and failed on their own merits, with attempts left. */
  predicate Corrects(c: Config, e: AttemptEnv, n: nat) {
    Checked(e) && !ChecksPass(e) && !Missing(EvidenceOf(e.checks)) && n < c.maxAttempts
    && e.toFailed && e.toReady && e.toRunning && e.waited
  }

  predicate Continues(c: Config, env: Environment, n: nat) {
    var e, failure := env(n), FailureOf(c, env, n);
    e.captured && (c.readOnly || !AskedBefore(c, env, n))
    && if failure.Some? then Retries(c, e, n, failure.value) else !c.readOnly && Corrects(c, e, n)
  }

  predicate Passes(c: Config, env: Environment, n: nat) {
    var e := env(n);
    e.captured && (c.readOnly || !AskedBefore(c, env, n)) && FailureOf(c, env, n).None?
    && EndsWell(c, e)
  }

  predicate EndsWell(c: Config, e: AttemptEnv) {
    if c.readOnly then Untouched(c, e) && e.recorded else Checked(e) && ChecksPass(e) && e.toReview
  }

  /** The failure class reported when attempt `n` is the last: that of the driver's failure, of the
      missing program, of the checks when attempts ran out, or of the read-only rule; none when the
      run's own steps failed, or nothing did. */
  function FinalKind(c: Config, env: Environment, n: nat): Class {
    if !env(n).captured || (!c.readOnly && AskedBefore(c, env, n)) then NoClass
    else SettledKind(c, env(n), n, FailureOf(c, env, n))
  }

  function SettledKind(c: Config, e: AttemptEnv, n: nat, failure: Option<Judged>): Class {
    if failure.Some? then
      if !e.recorded || (failure.value.retryable && n < c.maxAttempts) then NoClass else failure.value.kind
    else if c.readOnly then
      if Untouched(c, e) then NoClass else Policy
    else if !Checked(e) || ChecksPass(e) || !e.toFailed then NoClass
    else if Missing(EvidenceOf(e.checks)) then Environment
    else if n == c.maxAttempts then ChecksFailed
    else NoClass
  }

  /** Every attempt before `n` was followed by another. */
  ghost predicate GoesOn(c: Config, env: Environment, n: nat) {
    n >= 1 && forall k: nat :: 1 <= k < n ==> Continues(c, env, k)
  }

  /** Every run has exactly one last attempt, within the bound, and ends well exactly when some attempt
      that is reached does. */
  lemma OneOutcome(c: Config, env: Environment) returns (last: nat)
    requires c.maxAttempts >= 1
    ensures 1 <= last <= c.maxAttempts && GoesOn(c, env, last) && !Continues(c, env, last)
    ensures forall n: nat :: GoesOn(c, env, n) ==> n <= last
    ensures Passes(c, env, last) <==> exists n: nat :: GoesOn(c, env, n) && Passes(c, env, n)
  {
    last := 1;
    while Continues(c, env, last)
      invariant 1 <= last <= c.maxAttempts && GoesOn(c, env, last)
      decreases c.maxAttempts - last
    {
      last := last + 1;
    }
    forall n: nat | GoesOn(c, env, n) ensures n <= last { assert last < n ==> Continues(c, env, last); }
    forall n: nat | GoesOn(c, env, n) && Passes(c, env, n) ensures n == last {
      assert !Continues(c, env, n);
      assert n < last ==> Continues(c, env, n);
    }
  }

  /** An attempt begins: its number, its driver's calls, its cost. */
  lemma Begins(c: Config, env: Environment, before: Status, b: Books, b': Books, n: nat)
    requires n >= 1 && Between(c, env, before, b, n - 1)
    requires b'.stored == b.stored && b'.log == b.log.(calls := b.log.calls + CallsAt(c, env, n))
    requires b'.result == b.result.(attempt := n, spent := Plus(b.result.spent, Charge(c, env, n)))
    ensures Begun(c, env, before, b', n)
  {
    assert CallsUpTo(c, env, n) == CallsUpTo(c, env, n - 1) + CallsAt(c, env, n);
    assert Charged(c, env, n) == Plus(Charged(c, env, n - 1), Charge(c, env, n));
  }

  lemma ChargesNothing(c: Config, env: Environment, b: Books, b': Books, n: nat)
    requires NoTool(c) && b'.log == b.log && b'.result == b.result.(attempt := n)
    ensures b'.log == b.log.(calls := b.log.calls + CallsAt(c, env, n))
    ensures b'.result == b.result.(attempt := n, spent := Plus(b.result.spent, Charge(c, env, n)))
  {}

  lemma NoCommit(c: Config, env: Environment, log: Log, commit: Option<nat>, n: nat)
    requires n >= 1 && Logged(c, env, log, commit, n - 1, n - 1) && !TriesCommit(c, env, n)
    requires !(c.readOnly && env(n).captured && FailureOf(c, env, n).None?)
    ensures Logged(c, env, log, commit, n, n)
  {}

  lemma OneMoreTold(c: Config, env: Environment, attempts: seq<Attempt>, a: Attempt)
    requires AllTold(c, env, attempts, |attempts|) && Told(c, env, |attempts| + 1, a)
    ensures AllTold(c, env, attempts + [a], |attempts|)
  {
    forall i | 0 <= i < |attempts + [a]| ensures Told(c, env, i + 1, (attempts + [a])[i]) {
      if i < |attempts| { assert Told(c, env, i + 1, attempts[i]); }
    }
  }

  function Rewritten(attempts: seq<Attempt>): (r: seq<Attempt>)
    requires attempts != []
  {
    attempts[|attempts| - 1 := attempts[|attempts| - 1].(outcome := Recovered)]
  }

  lemma LastRecovered(c: Config, env: Environment, attempts: seq<Attempt>)
    requires attempts != [] && AllTold(c, env, attempts, |attempts| - 1)
    requires AttemptKind(c, env, |attempts|) in {Transient, ChecksFailed}
    ensures AllTold(c, env, Rewritten(attempts), |attempts|)
  {
    var n := |attempts| - 1;
    assert Told(c, env, n + 1, attempts[n]);
    var all := Rewritten(attempts);
    forall i | 0 <= i < |all| ensures Told(c, env, i + 1, all[i]) && Again(all[i]) {
      if i < n { assert Told(c, env, i + 1, attempts[i]); }
    }
  }

  lemma Commits(c: Config, env: Environment, log: Log, commit: Option<nat>, log': Log, commit': Option<nat>, n: nat)
    requires n >= 1 && Logged(c, env, log, commit, n - 1, n - 1) && TriesCommit(c, env, n)
    requires log'.commits == log.commits + [n] && log'.checked == log.checked
    requires commit' == if env(n).commit.Committed? then Some(env(n).commit.sha) else commit
    ensures Logged(c, env, log', commit', n, n - 1)
  {}

  /** A commit tried: the attempt is as unrecorded as before, whatever the commit came to. */
  lemma CommitTried(c: Config, env: Environment, before: Status, b: Books, b': Books, n: nat)
    requires Begun(c, env, before, b, n) && TriesCommit(c, env, n)
    requires b'.stored == b.stored && b'.log == b.log.(commits := b.log.commits + [n])
    requires b'.result == b.result.(commit := if env(n).commit.Committed? then Some(env(n).commit.sha) else b.result.commit)
    ensures Unrecorded(c, env, before, b', n) && Logged(c, env, b'.log, b'.result.commit, n, n - 1)
  {
    Commits(c, env, b.log, b.result.commit, b'.log, b'.result.commit, n);
    StillUnrecorded(c, env, before, b, b', n);
  }

  lemma StillUnrecorded(c: Config, env: Environment, before: Status, b: Books, b': Books, n: nat)
    requires !c.readOnly && Unrecorded(c, env, before, b, n)
    requires b'.stored == b.stored && b'.log == b.log.(commits := b'.log.commits)
    requires b'.result == b.result.(commit := b'.result.commit)
    ensures Unrecorded(c, env, before, b', n)
  {}

  predicate IsStart(c: Config, stored: Status, result: Result, log: Log) {
    && (!c.readOnly ==> stored == Running)
    && result == Result(None, false, 0, [], NOTHING, NoClass, None, None, [])
    && log == Log([], if c.readOnly then [] else [Running], [], [], [])
  }

  lemma Starts(c: Config, env: Environment, b: Books)
    requires c.maxAttempts >= 1 && IsStart(c, b.stored, b.result, b.log)
    ensures Between(c, env, b.stored, b, 0)
  {
    assert CallsUpTo(c, env, 0) == [] && Charged(c, env, 0) == NOTHING;
  }

  lemma QuietEvidence(c: Config, env: Environment, n: nat)
    requires Enters(c, env, n) && !RunsChecks(c, env, n) && (c.readOnly ==> FailureOf(c, env, n).Some?)
    ensures AttemptEvidence(c, env, n) == [] + RunRecord(env(n), false)
  {}

  lemma CheckedEvidence(c: Config, env: Environment, n: nat)
    requires RunsChecks(c, env, n) && AllKept(env(n).checks, env(n).noteRecorded)
    ensures Enters(c, env, n) && AttemptEvidence(c, env, n) == EvidenceOf(env(n).checks) + RunRecord(env(n), ChecksPass(env(n)))
  {}

  /** An attempt that does not enter the result leaves no evidence. */
  lemma NoEvidence(c: Config, env: Environment, n: nat)
    requires n >= 1 && !Enters(c, env, n)
    ensures EvidenceUpTo(c, env, n) == EvidenceUpTo(c, env, n - 1)
  {}

  /** An attempt that asked is committed, not checked, and has no class. */
  lemma AskedAttempt(c: Config, env: Environment, n: nat)
    requires !c.readOnly && !c.toolMissing && env(n).captured && AskedBefore(c, env, n) && n >= 1
    ensures TriesCommit(c, env, n) && !RunsChecks(c, env, n) && AttemptKind(c, env, n) == NoClass
    ensures Enters(c, env, n) <==> !env(n).commit.CommitFails?
    ensures Enters(c, env, n) ==> AttemptEvidence(c, env, n) == [] + RunRecord(env(n), false)
    ensures !Enters(c, env, n) ==> EvidenceUpTo(c, env, n) == EvidenceUpTo(c, env, n - 1)
  {
    if !Enters(c, env, n) { NoEvidence(c, env, n); } else { QuietEvidence(c, env, n); }
  }

  lemma NotEntered(c: Config, env: Environment, before: Status, b: Books, n: nat)
    requires n >= 1 && Unrecorded(c, env, before, b, n) && Logged(c, env, b.log, b.result.commit, n, n) && !Enters(c, env, n)
    ensures Recorded(c, env, b, n) && EvidenceUpTo(c, env, n) == EvidenceUpTo(c, env, n - 1)
  {
    NoEvidence(c, env, n);
  }

  /** An attempt whose driver failed is neither committed nor checked, and has the failure's class. */
  lemma FailedAttempt(c: Config, env: Environment, log: Log, commit: Option<nat>, n: nat)
    requires n >= 1 && Settling(c, env, n) && FailureOf(c, env, n).Some? && Logged(c, env, log, commit, n - 1, n - 1)
    ensures Logged(c, env, log, commit, n, n) && Enters(c, env, n) && AttemptKind(c, env, n) == FailureOf(c, env, n).value.kind
    ensures AttemptEvidence(c, env, n) == [] + RunRecord(env(n), false)
  {
    NoCommit(c, env, log, commit, n);
    QuietEvidence(c, env, n);
  }

  /** A read-only attempt whose driver did not fail is neither committed nor checked, and has the class
      of what it changed. */
  lemma ReadOnlyAttempt(c: Config, env: Environment, log: Log, commit: Option<nat>, n: nat)
    requires n >= 1 && c.readOnly && Settling(c, env, n) && FailureOf(c, env, n).None? && Logged(c, env, log, commit, n - 1, n - 1)
    ensures Logged(c, env, log, Some(c.start), n, n) && Enters(c, env, n)
    ensures AttemptKind(c, env, n) == if Untouched(c, env(n)) then NoClass else Policy
    ensures AttemptEvidence(c, env, n) == [] + RunRecord(env(n), Untouched(c, env(n)))
  {}

  lemma NoChecks(c: Config, env: Environment, log: Log, commit: Option<nat>, n: nat)
    requires n >= 1 && Logged(c, env, log, commit, n, n - 1) && !RunsChecks(c, env, n)
    ensures Logged(c, env, log, commit, n, n)
  {}

  lemma Checks(c: Config, env: Environment, log: Log, log': Log, commit: Option<nat>, n: nat)
    requires n >= 1 && Logged(c, env, log, commit, n, n - 1) && RunsChecks(c, env, n)
    requires log'.commits == log.commits && log'.checked == log.checked + [n]
    ensures Logged(c, env, log', commit, n, n)
  {}

  lemma StillQuiet(c: Config, env: Environment, n: nat)
    requires n >= 1 && Quiet(c, env, n - 1) && !AskedBefore(c, env, n)
    ensures Quiet(c, env, n)
  {}

  lemma LastToAsk(c: Config, env: Environment, b: Books, err: bool, n: nat)
    requires n >= 1 && Quiet(c, env, n - 1) && b.result.attempt == n && n !in b.log.checked
    requires NeedsInput(b, err) || !env(n).captured || env(n).commit.CommitFails? || !env(n).recorded || !env(n).toBlocked
    ensures AskEnds(c, env, b, err)
  {}

  /** The letters of the k-th take's window are what attempt k + 1 heard. */
  ghost predicate HeardIn(s: Server, c: Config, env: Environment, k: nat)
    requires k < |s.takes|
  {
    var lo, hi := Since(s.takes, k), s.takes[k].upto;
    lo <= hi <= |s.handled| && (forall i :: lo <= i < hi ==> s.handled[i] < |s.letters|) && Window(s, lo, hi) == MessagesOf(c, env, k + 1)
  }

  lemma AskHeard(s: Server, c: Config, env: Environment, k: nat, i: nat)
    requires k < |s.takes| && HeardIn(s, c, env, k) && Since(s.takes, k) <= i < s.takes[k].upto
    requires Asks(s.letters[s.handled[i]])
    ensures AskedBefore(c, env, k + 1)
  {
    var lo, hi := Since(s.takes, k), s.takes[k].upto;
    var messages := Window(s, lo, hi);
    assert messages[i - lo] == s.letters[s.handled[i]];
    assert AnyAsk(messages);
  }

  /** From the socket to the end of the run: when attempts hear what the server handled, take by take, an
      ask that was acknowledged and handled before the last take makes the attempt of that take the last,
      and the run needs input unless capturing, committing, recording or moving failed. */
  lemma AcknowledgedAskEndsTheRun(actions: seq<AgentLink.Action>, s: Server, c: Config, env: Environment, b: Books, err: bool, n: nat)
    returns (i: nat)
    requires AgentLink.Runs(Listen(), actions, s)
    requires n in s.acked && n < |s.letters| && Asks(s.letters[n]) && !s.question
    requires |s.takes| <= b.result.attempt && forall k: nat :: k < |s.takes| ==> HeardIn(s, c, env, k)
    requires AskEnds(c, env, b, err)
    ensures i < |s.handled| && s.handled[i] == n && |s.takes| == b.result.attempt >= 1 && Since(s.takes, |s.takes| - 1) <= i
    ensures var last := b.result.attempt;
            last !in b.log.checked && (NeedsInput(b, err) || !env(last).captured || env(last).commit.CommitFails? ||
                                       !env(last).recorded || !env(last).toBlocked)
  {
    var k;
    i, k := AcknowledgedAskIsHeard(actions, s, n);
    assert HeardIn(s, c, env, k);
    AskHeard(s, c, env, k, i);
  }

  /** `q` is the last non-blank ask among the messages: its words without the white space around them,
      when nothing in them looks like a secret, else the notice. */
  ghost predicate AsksLast(ms: seq<Message>, q: Question, secrets: seq<string>, patterns: seq<Redact.Pattern>) {
    exists text :: SaidLast(ms, text) && q == if Redact.LooksClean(text, secrets, patterns) then Words(text) else SecretNotice
  }

  lemma AsksWith(ms: seq<Message>, q: Question, keep: string -> Question, agent: AgentSession)
    requires AskedWith(keep, ms) == Some(q) && forall text {:trigger agent.Kept(text)} :: agent.Kept(text) == keep(text)
    ensures AsksLast(ms, q, agent.secrets, agent.patterns)
  {
    LastWordsAre(ms);
    var text := LastWords(ms).value;
    assert q == agent.Kept(text) && SaidLast(ms, text);
  }

  /** How a run ends in attempt `n`: as that attempt decides, with the question that was asked. */
  ghost predicate Over(c: Config, env: Environment, before: Status, keep: string -> Question, b: Books, err: bool, n: nat) {
    && Ended(c, env, before, b) && b.result.attempt == n
    && (b.result.passed <==> Passes(c, env, n)) && b.result.kind == FinalKind(c, env, n)
    && (b.result.question.Some? ==> b.result.question == AskedWith(keep, MessagesOf(c, env, n)))
    && (err <==> !b.result.passed && b.result.question == None)
    && if c.readOnly then Refused(c, env, b) else AskEnds(c, env, b, err)
  }

  class Loop {
    const c: Config
    const env: Environment
    const agent: AgentSession
    ghost const before: Status
    /** What the session keeps of a question. */
    ghost const keep: string -> Question
    var stored: Status
    var result: Result
    ghost var log: Log

    ghost predicate Keeps() {
      forall text {:trigger agent.Kept(text)} :: agent.Kept(text) == keep(text)
    }

    ghost function State(): Books
      reads this
    {
      Books(stored, result, log)
    }

    constructor (c: Config, env: Environment, agent: AgentSession, stored: Status)
      ensures this.c == c && this.env == env && this.agent == agent && before == stored && this.stored == stored && Keeps()
      ensures result == Result(None, false, 0, [], NOTHING, NoClass, None, None, [])
      ensures log == Log([], if c.readOnly then [] else [Running], [], [], [])
    {
      this.c, this.env, this.agent, this.stored, before := c, env, agent, stored, stored;
      keep := text => KeptOf(text, agent.secrets, agent.patterns);
      result := Result(None, false, 0, [], NOTHING, NoClass, None, None, []);
      log := Log([], if c.readOnly then [] else [Running], [], [], []);
    }

    /** taskcompat.Move: the store takes the status or answers an error. */
    method Move(to: Status, taken: bool) returns (ok: bool)
      requires !c.readOnly && Place(c, before, State()) && MoveAllowed(stored, to)
      modifies this
      ensures ok == taken && result == old(result)
      ensures Place(c, before, State()) && stored == if taken then to else old(stored)
      ensures log == old(log).(moves := log.moves)
    {
      ok := taken;
      if taken {
        stored := to;
        log := log.(moves := log.moves + [to]);
      }
    }

    /** The `fail` closure: record (whatever comes of it), move to failed, answer the error. */
    method Fail(n: nat)
      requires Place(c, before, State()) && result.status == None && !result.passed && result.question == None
      requires !c.readOnly ==> stored in {Running, Status.Verify, Status.Failed, Ready}
      modifies this
      ensures result == old(result).(status := result.status)
      ensures log == old(log).(moves := log.moves)
      ensures Place(c, before, State())
      ensures result.status == if c.readOnly || env(n).failTo then Some(Status.Failed) else None
      ensures !c.readOnly ==> stored == (if env(n).failTo then Status.Failed else old(stored)) && Agrees(State())
    {
      if c.readOnly {
        result := result.(status := Some(Status.Failed));
      } else {
        var ok := Move(Status.Failed, env(n).failTo);
        if ok { result := result.(status := Some(Status.Failed)); }
      }
    }

    /** Messages reach the session while the driver runs, and after. */
    method Hear(messages: seq<Message>)
      requires Keeps()
      modifies agent
      ensures agent.question == if LastWords(messages).Some? then AskedWith(keep, messages) else old(agent.question)
    {
      for i := 0 to |messages|
        invariant agent.question == if LastWords(messages[..i]).Some? then AskedWith(keep, messages[..i]) else old(agent.question)
      {
        assert messages[..i + 1][..i] == messages[..i];
        agent.Handle(messages[i]);
      }
      assert messages[..|messages|] == messages;
    }

    method Execute(n: nat) returns (a: Answer)
      requires n >= 1 && !NoTool(c)
      requires agent.question == AskedWith(keep, Late(env, n))
      requires Keeps()
      modifies this, agent
      ensures stored == old(stored) && result == old(result) && log == old(log).(calls := old(log).calls + CallsAt(c, env, n))
      ensures a == Chosen(c, env(n), n)
      ensures agent.question == AskedWith(keep, MessagesOf(c, env, n))
    {
      var e := env(n);
      WordsOf(c, env, n);
      if n == 1 && c.resume {
        log := log.(calls := log.calls + [Call(1, true)]);
        Hear(e.resumed.messages);
        LastWordsAre(e.resumed.messages);
        if e.resumed.failure.None? || agent.question.Some? { return e.resumed; }
      }
      log := log.(calls := log.calls + [Call(n, false)]);
      Hear(e.begun.messages);
      a := e.begun;
    }

    /** The running totals grow before the log file is written. */
    method CaptureOutput(n: nat, a: Answer) returns (ok: bool, spent: Spent)
      modifies this
      ensures stored == old(stored) && ok == env(n).captured && spent == SpentBy(a.output, c.estimate)
      ensures result == old(result).(spent := Plus(old(result).spent, spent)) && log == old(log)
    {
      spent := SpentBy(a.output, c.estimate);
      result := result.(spent := Plus(result.spent, spent));
      ok := env(n).captured;
    }

    /** An attempt enters the result with what its own output cost. */
    method Append(n: nat, outcome: Outcome, kind: Class, spent: Spent)
      requires Unrecorded(c, env, before, State(), n) && Logged(c, env, log, result.commit, n, n) && Enters(c, env, n)
      requires spent == Charge(c, env, n) && kind == AttemptKind(c, env, n) && outcome == if kind == NoClass then DidPass else DidFail
      modifies this
      ensures stored == old(stored) && log == old(log)
      ensures result == old(result).(attempts := old(result).attempts + [Attempt(n, outcome, kind, spent)])
      ensures Closing(c, env, before, State(), n)
    {
      OneMoreTold(c, env, result.attempts, Attempt(n, outcome, kind, spent));
      result := result.(attempts := result.attempts + [Attempt(n, outcome, kind, spent)]);
    }

    /** The run record: task.Record, which may fail. */
    method RecordRun(n: nat, passed: bool, ghost checks: seq<Evidence>) returns (ok: bool)
      requires n >= 1 && result.evidence == EvidenceUpTo(c, env, n - 1) + checks
      requires AttemptEvidence(c, env, n) == checks + RunRecord(env(n), passed)
      modifies this
      ensures ok == env(n).recorded && stored == old(stored) && log == old(log)
      ensures result == old(result).(evidence := EvidenceUpTo(c, env, n))
    {
      ok := env(n).recorded;
      if ok { result := result.(evidence := result.evidence + [Evidence(Kind.Run, passed, false)]); }
    }

    /** The last attempt becomes one that another may follow. */
    method Recover(n: nat)
      requires Closing(c, env, before, State(), n) && n < c.maxAttempts && n >= 1
      requires AttemptKind(c, env, n) in {Transient, ChecksFailed}
      modifies this
      ensures stored == old(stored) && log == old(log) && result == old(result).(attempts := result.attempts)
      ensures Closing(c, env, before, State(), n) && AllTold(c, env, result.attempts, n)
    {
      LastRecovered(c, env, result.attempts);
      result := result.(attempts := Rewritten(result.attempts));
    }

    method CommitWork(n: nat) returns (ok: bool)
      requires Begun(c, env, before, State(), n) && TriesCommit(c, env, n)
      modifies this
      ensures ok <==> !env(n).commit.CommitFails?
      ensures Unrecorded(c, env, before, State(), n) && Logged(c, env, log, result.commit, n, n - 1)
      ensures stored == old(stored) && log == old(log).(commits := old(log).commits + [n])
      ensures result == old(result).(commit := if env(n).commit.Committed? then Some(env(n).commit.sha) else old(result).commit)
    {
      ghost var was := State();
      log := log.(commits := log.commits + [n]);
      ok := !env(n).commit.CommitFails?;
      if env(n).commit.Committed? { result := result.(commit := Some(env(n).commit.sha)); }
      CommitTried(c, env, before, was, State(), n);
    }

    /** The agent stopped to ask: commit, record, block. */
    method AskForInput(n: nat, spent: Spent, q: Question) returns (err: bool)
      requires !c.readOnly && !c.toolMissing && Begun(c, env, before, State(), n) && spent == Charge(c, env, n)
      requires env(n).captured && AskedBefore(c, env, n)
      modifies this
      ensures Ended(c, env, before, State()) && result.attempt == n
      ensures NeedsInput(State(), err) || env(n).commit.CommitFails? || !env(n).recorded || !env(n).toBlocked
      ensures result.question.Some? ==> result.question == Some(q)
      ensures !result.passed && (err <==> result.question == None) && result.kind == NoClass
    {
      AskedAttempt(c, env, n);
      var ok := CommitWork(n);
      NoChecks(c, env, log, result.commit, n);
      if !ok { Fail(n); return true; }
      err := Await(n, spent, q);
    }

    /** The record that waits for an answer, and the task blocked. */
    method Await(n: nat, spent: Spent, q: Question) returns (err: bool)
      requires !c.readOnly && Unrecorded(c, env, before, State(), n) && Logged(c, env, log, result.commit, n, n) && stored == Running
      requires spent == Charge(c, env, n) && Enters(c, env, n) && AttemptKind(c, env, n) == NoClass
      requires AttemptEvidence(c, env, n) == [] + RunRecord(env(n), false) && result.evidence == EvidenceUpTo(c, env, n - 1)
      modifies this
      ensures Ended(c, env, before, State()) && result.attempt == n
      ensures NeedsInput(State(), err) <==> env(n).recorded && env(n).toBlocked
      ensures result.question.Some? ==> result.question == Some(q)
      ensures !result.passed && (err <==> result.question == None) && result.kind == NoClass
    {
      Append(n, DidPass, NoClass, spent);
      var ok := RecordRun(n, false, []);
      if !ok { Fail(n); return true; }
      err := Block(n, q);
    }

    method Block(n: nat, q: Question) returns (err: bool)
      requires !c.readOnly && Closing(c, env, before, State(), n) && stored == Running && result.evidence == EvidenceUpTo(c, env, n)
      modifies this
      ensures Ended(c, env, before, State()) && result.attempt == n
      ensures NeedsInput(State(), err) <==> env(n).toBlocked
      ensures result.question.Some? ==> result.question == Some(q)
      ensures !result.passed && (err <==> result.question == None) && result.kind == NoClass
    {
      var ok := Move(Blocked, env(n).toBlocked);
      if !ok { Fail(n); return true; }
      result := result.(status := Some(Blocked), passed := false, question := Some(q));
      err := false;
    }

    /** The driver failed: another attempt for a transient failure, else the run failed. */
    method AfterFailure(n: nat, spent: Spent, failure: Judged) returns (again: bool, err: bool)
      requires Begun(c, env, before, State(), n) && spent == Charge(c, env, n)
      requires Settling(c, env, n) && FailureOf(c, env, n) == Some(failure)
      modifies this
      ensures again <==> Retries(c, env(n), n, failure)
      ensures again ==> Between(c, env, before, State(), n)
      ensures !again ==> err && Ended(c, env, before, State()) && result.attempt == n && !result.passed && result.question == None
      ensures !again ==> result.kind == if !env(n).recorded || (failure.retryable && n < c.maxAttempts) then NoClass else failure.kind
    {
      FailedAttempt(c, env, log, result.commit, n);
      Append(n, DidFail, failure.kind, spent);
      var ok := RecordRun(n, false, []);
      if !ok { Fail(n); return false, true; }
      if failure.retryable && n < c.maxAttempts {
        again := Retry(n);
        return again, !again;
      }
      EndFailed(n, failure.kind);
      return false, true;
    }

    /** The attempt is recovered from, once the wait is over. */
    method Retry(n: nat) returns (again: bool)
      requires Closing(c, env, before, State(), n) && n < c.maxAttempts && AttemptKind(c, env, n) == Transient
      requires (!c.readOnly ==> stored == Running) && result.evidence == EvidenceUpTo(c, env, n)
      modifies this
      ensures again == env(n).waited && (again ==> Between(c, env, before, State(), n))
      ensures !again ==> Ended(c, env, before, State()) && result.attempt == n && result.question == None && !result.passed && result.kind == NoClass
    {
      Recover(n);
      again := env(n).waited;
      if !again { Fail(n); }
    }

    /** The class of the failure, and the task moved to failed if the store takes it. */
    method EndFailed(n: nat, kind: Class)
      requires Closing(c, env, before, State(), n) && (!c.readOnly ==> stored == Running)
      requires result.evidence == EvidenceUpTo(c, env, n)
      modifies this
      ensures Ended(c, env, before, State()) && log == old(log).(moves := log.moves)
      ensures result == old(result).(kind := kind, status := result.status)
    {
      result := result.(kind := kind);
      if c.readOnly {
        result := result.(status := Some(Status.Failed));
      } else {
        var ok := Move(Status.Failed, env(n).toFailed);
        if ok { result := result.(status := Some(Status.Failed)); }
      }
    }

    /** A read-only run ends here: the worktree clean, HEAD and the branch where they were. */
    method FinishReadOnly(n: nat, spent: Spent) returns (err: bool)
      requires c.readOnly && Begun(c, env, before, State(), n) && spent == Charge(c, env, n)
      requires Settling(c, env, n) && FailureOf(c, env, n).None?
      modifies this
      ensures Ended(c, env, before, State()) && result.attempt == n
      ensures result.kind == if Untouched(c, env(n)) then NoClass else Policy
      ensures result.passed <==> Untouched(c, env(n)) && env(n).recorded
      ensures result.question == None && (err <==> !result.passed)
    {
      ReadOnlyAttempt(c, env, log, result.commit, n);
      var e := env(n);
      var problems := 0;
      if e.changes.None? || e.changes.value > 0 { problems := problems + 1; }
      if e.head != Some(c.start) { problems := problems + 1; }
      if e.tip != Some(c.start) { problems := problems + 1; }
      result := result.(commit := Some(c.start));
      if problems > 0 {
        Append(n, DidFail, Policy, spent);
        var _ := RecordRun(n, false, []);
        result := result.(status := Some(Status.Failed), passed := false, kind := Policy);
        return true;
      }
      Append(n, DidPass, NoClass, spent);
      var ok := RecordRun(n, true, []);
      if !ok { Fail(n); return true; }
      result := result.(status := Some(Status.Done), passed := true);
      err := false;
    }

    /** Commit, then the checks. On an error the task is where it can still be failed. */
    method Verify(n: nat, spent: Spent) returns (ok: bool, passed: bool)
      requires !c.readOnly && Begun(c, env, before, State(), n) && spent == Charge(c, env, n)
      requires Settling(c, env, n) && FailureOf(c, env, n).None?
      modifies this
      ensures Open(result) && Place(c, before, State()) && Recorded(c, env, State(), n) && stored in {Running, Status.Verify}
      ensures result.evidence == EvidenceUpTo(c, env, n)
      ensures ok ==> Closing(c, env, before, State(), n) && stored == Status.Verify
      ensures ok <==> Checked(env(n))
      ensures ok ==> log.verified == EvidenceOf(env(n).checks) && (passed <==> ChecksPass(env(n)))
    {
      ok := CommitWork(n);
      if !ok { NoChecks(c, env, log, result.commit, n); return false, false; }
      ok := Move(Status.Verify, env(n).toVerify);
      if !ok { NoChecks(c, env, log, result.commit, n); return false, false; }
      ok, passed := CheckAndRecord(n, spent);
    }

    /** The checks, and the attempt they make. */
    method CheckAndRecord(n: nat, spent: Spent) returns (ok: bool, passed: bool)
      requires !c.readOnly && n >= 1 && Unrecorded(c, env, before, State(), n) && stored == Status.Verify && spent == Charge(c, env, n)
      requires Settling(c, env, n) && FailureOf(c, env, n).None? && RunsChecks(c, env, n) && Logged(c, env, log, result.commit, n, n - 1)
      requires result.evidence == EvidenceUpTo(c, env, n - 1)
      modifies this
      ensures Open(result) && Place(c, before, State()) && Recorded(c, env, State(), n) && stored == Status.Verify
      ensures result.evidence == EvidenceUpTo(c, env, n)
      ensures ok ==> Closing(c, env, before, State(), n)
      ensures ok <==> AllKept(env(n).checks, env(n).noteRecorded) && env(n).recorded
      ensures ok ==> log.verified == EvidenceOf(env(n).checks) && (passed <==> ChecksPass(env(n)))
    {
      var evidence, kind;
      ok, passed, evidence, kind := RunTheChecks(n);
      if !ok {
        NotEntered(c, env, before, State(), n);
        return false, false;
      }
      ok := EnterChecks(n, spent, passed, evidence, kind);
    }

    method RunTheChecks(n: nat) returns (ok: bool, passed: bool, evidence: seq<Evidence>, kind: Class)
      requires !c.readOnly && n >= 1 && Unrecorded(c, env, before, State(), n)
      requires Settling(c, env, n) && FailureOf(c, env, n).None? && RunsChecks(c, env, n) && Logged(c, env, log, result.commit, n, n - 1)
      modifies this
      ensures stored == old(stored) && result == old(result)
      ensures Unrecorded(c, env, before, State(), n) && Logged(c, env, log, result.commit, n, n)
      ensures ok <==> AllKept(env(n).checks, env(n).noteRecorded)
      ensures ok <==> Enters(c, env, n)
      ensures ok ==> log.verified == evidence == EvidenceOf(env(n).checks) && (passed <==> ChecksPass(env(n)))
      ensures ok ==> kind == AttemptKind(c, env, n) && (kind == NoClass <==> passed)
      ensures ok ==> AttemptEvidence(c, env, n) == evidence + RunRecord(env(n), passed)
    {
      ok, passed, evidence, kind := Check(n);
      ghost var had := log;
      log := log.(checked := log.checked + [n], verified := evidence);
      Checks(c, env, had, log, result.commit, n);
      if ok { CheckedEvidence(c, env, n); }
    }

    /** Checks that could be kept: their evidence, the attempt, and its run record. */
    method EnterChecks(n: nat, spent: Spent, passed: bool, evidence: seq<Evidence>, kind: Class) returns (ok: bool)
      requires Unrecorded(c, env, before, State(), n) && Logged(c, env, log, result.commit, n, n) && Enters(c, env, n) && spent == Charge(c, env, n)
      requires kind == AttemptKind(c, env, n) && (kind == NoClass <==> passed)
      requires AttemptEvidence(c, env, n) == evidence + RunRecord(env(n), passed) && result.evidence == EvidenceUpTo(c, env, n - 1)
      modifies this
      ensures ok == env(n).recorded && stored == old(stored) && log == old(log)
      ensures Closing(c, env, before, State(), n) && result.evidence == EvidenceUpTo(c, env, n)
    {
      result := result.(evidence := result.evidence + evidence);
      Append(n, if passed then DidPass else DidFail, kind, spent);
      ok := RecordRun(n, passed, evidence);
    }

    method Check(n: nat) returns (ok: bool, passed: bool, evidence: seq<Evidence>, kind: Class)
      ensures ok <==> AllKept(env(n).checks, env(n).noteRecorded)
      ensures ok ==> evidence == EvidenceOf(env(n).checks) && (passed <==> ChecksPass(env(n))) && kind == VerifiedKind(passed, evidence)
    {
      ok, passed, evidence := RunVerification(env(n).checks, env(n).noteRecorded);
      var missing := MissingTool(evidence);
      kind := if passed then NoClass else if missing then Environment else ChecksFailed;
    }

    /** The attempt is one to correct: ready, running, and the wait is over. */
    method Correct(n: nat) returns (again: bool)
      requires !c.readOnly && Closing(c, env, before, State(), n) && stored == Status.Failed
      requires result.evidence == EvidenceUpTo(c, env, n)
      requires n >= 1 && n < c.maxAttempts && AttemptKind(c, env, n) == ChecksFailed
      modifies this
      ensures again <==> env(n).toReady && env(n).toRunning && env(n).waited
      ensures log.verified == old(log).verified
      ensures again ==> Between(c, env, before, State(), n)
      ensures !again ==> Ended(c, env, before, State()) && result.attempt == n && result.question == None && !result.passed && result.kind == NoClass
    {
      Recover(n);
      again := Move(Ready, env(n).toReady);
      if !again { Fail(n); return; }
      again := Move(Running, env(n).toRunning);
      if !again { Fail(n); return; }
      again := env(n).waited;
      if !again { Fail(n); }
    }

    /** Failed for good when a program is missing or it was the last attempt; else corrected. */
    method FailChecks(n: nat) returns (again: bool)
      requires !c.readOnly && n >= 1 && Closing(c, env, before, State(), n) && stored == Status.Verify
      requires result.evidence == EvidenceUpTo(c, env, n)
      requires AttemptKind(c, env, n) == VerifiedKind(false, log.verified)
      modifies this
      ensures again <==> env(n).toFailed && !Missing(log.verified) && n < c.maxAttempts && env(n).toReady && env(n).toRunning && env(n).waited
      ensures log.verified == old(log).verified
      ensures again ==> Between(c, env, before, State(), n)
      ensures !again ==> Ended(c, env, before, State()) && result.attempt == n && result.question == None && !result.passed
      ensures !again ==> result.kind == if !env(n).toFailed then NoClass else if Missing(log.verified) then Environment
                                        else if n == c.maxAttempts then ChecksFailed else NoClass
    {
      var ok := Move(Status.Failed, env(n).toFailed);
      if !ok { Fail(n); return false; }
      if result.attempts[|result.attempts| - 1].kind == Environment {
        EndWith(n, Environment);
        return false;
      }
      if n == c.maxAttempts {
        EndWith(n, ChecksFailed);
        return false;
      }
      again := Correct(n);
    }

    method EndWith(n: nat, kind: Class)
      requires !c.readOnly && Closing(c, env, before, State(), n) && stored == Status.Failed
      requires result.evidence == EvidenceUpTo(c, env, n)
      modifies this
      ensures Ended(c, env, before, State()) && result.attempt == n && result.question == None && !result.passed && result.kind == kind
      ensures log == old(log)
    {
      result := result.(status := Some(Status.Failed), kind := kind);
    }

    /** Review when everything passed; else failed, and perhaps running again for a corrective attempt. */
    method AfterVerify(n: nat, spent: Spent) returns (again: bool, err: bool)
      requires !c.readOnly && Begun(c, env, before, State(), n) && spent == Charge(c, env, n)
      requires Settling(c, env, n) && FailureOf(c, env, n).None?
      modifies this
      ensures again <==> Corrects(c, env(n), n)
      ensures again ==> Between(c, env, before, State(), n)
      ensures !again ==> Ended(c, env, before, State()) && result.attempt == n && result.question == None && (err <==> !result.passed)
      ensures !again ==> (result.passed <==> Checked(env(n)) && ChecksPass(env(n)) && env(n).toReview)
      ensures !again ==> result.kind == SettledKind(c, env(n), n, None)
    {
      var ok, passed := Verify(n, spent);
      if !ok { Fail(n); return false, true; }
      again, err := AfterChecks(n, passed);
    }

    method AfterChecks(n: nat, passed: bool) returns (again: bool, err: bool)
      requires !c.readOnly && Closing(c, env, before, State(), n) && stored == Status.Verify && result.evidence == EvidenceUpTo(c, env, n)
      requires Settling(c, env, n) && FailureOf(c, env, n).None? && Checked(env(n))
      requires log.verified == EvidenceOf(env(n).checks) && (passed <==> ChecksPass(env(n)))
      modifies this
      ensures again <==> Corrects(c, env(n), n)
      ensures again ==> Between(c, env, before, State(), n)
      ensures !again ==> Ended(c, env, before, State()) && result.attempt == n && result.question == None && (err <==> !result.passed)
      ensures !again ==> (result.passed <==> ChecksPass(env(n)) && env(n).toReview)
      ensures !again ==> result.kind == SettledKind(c, env(n), n, None)
    {
      if passed {
        err := Accept(n);
        return false, err;
      }
      again := FailChecks(n);
      err := !again;
    }

    /** Everything passed: the task goes to review, if the store takes it. */
    method Accept(n: nat) returns (err: bool)
      requires !c.readOnly && Closing(c, env, before, State(), n) && stored == Status.Verify
      requires result.evidence == EvidenceUpTo(c, env, n)
      requires HasCheck(log.verified) && AllPassed(log.verified)
      modifies this
      ensures Ended(c, env, before, State()) && result.attempt == n && result.question == None && result.kind == NoClass
      ensures result.passed <==> env(n).toReview
      ensures err <==> !result.passed
    {
      var ok := Move(Review, env(n).toReview);
      if !ok { Fail(n); return true; }
      result := result.(passed := true, status := Some(Review));
      err := false;
    }

    /** What a captured output comes to when no question stops the run. */
    method Settle(n: nat, a: Answer, spent: Spent) returns (again: bool, err: bool)
      requires Begun(c, env, before, State(), n) && spent == Charge(c, env, n) && Settling(c, env, n) && a == Chosen(c, env(n), n)
      modifies this
      ensures again <==> Continues(c, env, n)
      ensures again ==> Between(c, env, before, State(), n)
      ensures !again ==> Ended(c, env, before, State()) && result.attempt == n && result.question == None && (err <==> !result.passed)
      ensures !again ==> (result.passed <==> Passes(c, env, n)) && result.kind == FinalKind(c, env, n)
    {
      if a.failure.Some? {
        again, err := AfterFailure(n, spent, c.judge(a.failure.value));
      } else if c.readOnly {
        err := FinishReadOnly(n, spent);
        again := false;
      } else {
        again, err := AfterVerify(n, spent);
      }
    }

    /** A question in a writable run stops it; anything else is settled. */
    method Conclude(n: nat, a: Answer, spent: Spent) returns (again: bool, err: bool)
      requires Begun(c, env, before, State(), n) && spent == Charge(c, env, n) && a == Chosen(c, env(n), n)
      requires !NoTool(c) && env(n).captured
      requires agent.question == AskedWith(keep, MessagesOf(c, env, n))
      requires !c.readOnly ==> Quiet(c, env, n - 1)
      requires Keeps()
      modifies this, agent
      ensures again <==> Continues(c, env, n)
      ensures again ==> Between(c, env, before, State(), n) && agent.question == AskedWith(keep, env(n).late)
      ensures again && !c.readOnly ==> Quiet(c, env, n)
      ensures !again ==> Over(c, env, before, keep, State(), err, n)
    {
      LastWordsAre(MessagesOf(c, env, n));
      var q := agent.TakeQuestion();
      if q.Some? && !c.readOnly {
        err := AskForInput(n, spent, q.value);
        LastToAsk(c, env, State(), err, n);
        return false, err;
      }
      if !c.readOnly { StillQuiet(c, env, n); }
      again, err := Settle(n, a, spent);
      if again { Hear(env(n).late); }
    }

    /** The driver runs, and its output is captured. */
    method AskAgent(n: nat) returns (ok: bool, a: Answer, spent: Spent)
      requires n >= 1 && !NoTool(c) && Between(c, env, before, State(), n - 1)
      requires agent.question == AskedWith(keep, Late(env, n))
      requires Keeps()
      modifies this, agent
      ensures Begun(c, env, before, State(), n)
      ensures ok == env(n).captured && a == Chosen(c, env(n), n) && spent == Charge(c, env, n)
      ensures agent.question == AskedWith(keep, MessagesOf(c, env, n))
    {
      ghost var was := State();
      result := result.(attempt := n);
      a := Execute(n);
      ok, spent := CaptureOutput(n, a);
      Begins(c, env, before, was, State(), n);
    }

    /** The log file could not be written: the output is in the totals, the attempt is not. */
    method LoseOutput(n: nat)
      requires !NoTool(c) && Begun(c, env, before, State(), n) && !env(n).captured
      requires !c.readOnly ==> Quiet(c, env, n - 1)
      modifies this
      ensures Ended(c, env, before, State()) && result.attempt == n && !result.passed && result.question == None && result.kind == NoClass
      ensures !c.readOnly ==> AskEnds(c, env, State(), true)
    {
      NoCommit(c, env, log, result.commit, n);
      Fail(n);
      if !c.readOnly { LastToAsk(c, env, State(), true, n); }
    }

    /** One turn of the loop. */
    method Turn(n: nat) returns (again: bool, err: bool)
      requires n >= 1 && !NoTool(c) && Between(c, env, before, State(), n - 1)
      requires agent.question == AskedWith(keep, Late(env, n))
      requires !c.readOnly ==> Quiet(c, env, n - 1)
      requires Keeps()
      modifies this, agent
      ensures again <==> Continues(c, env, n)
      ensures again ==> Between(c, env, before, State(), n) && agent.question == AskedWith(keep, env(n).late)
      ensures again && !c.readOnly ==> Quiet(c, env, n)
      ensures !again ==> Over(c, env, before, keep, State(), err, n)
    {
      var ok, a, spent := AskAgent(n);
      if !ok {
        LoseOutput(n);
        return false, true;
      }
      again, err := Conclude(n, a, spent);
    }

    /** Before the agent is asked anything: a check's program is not there. */
    method FailEnvironment(n: nat) returns (err: bool)
      requires NoTool(c) && n >= 1 && Between(c, env, before, State(), n - 1)
      modifies this
      ensures err && Ended(c, env, before, State()) && log == old(log).(moves := log.moves)
      ensures result.attempt == n && !result.passed && result.question == None
      ensures result.kind == if env(n).recorded then Environment else NoClass
    {
      ghost var was := State();
      result := result.(attempt := n);
      ChargesNothing(c, env, was, State(), n);
      Begins(c, env, before, was, State(), n);
      NoCommit(c, env, log, result.commit, n);
      err := true;
      EndEnvironment(n);
    }

    /** Its one attempt, its record, and the task failed. */
    method EndEnvironment(n: nat)
      requires NoTool(c) && Unrecorded(c, env, before, State(), n) && Logged(c, env, log, result.commit, n, n) && stored == Running
      requires result.evidence == EvidenceUpTo(c, env, n - 1)
      modifies this
      ensures Ended(c, env, before, State()) && log == old(log).(moves := log.moves)
      ensures result.attempt == n && !result.passed && result.question == None
      ensures result.kind == if env(n).recorded then Environment else NoClass
    {
      QuietEvidence(c, env, n);
      Append(n, DidFail, Environment, NOTHING);
      var ok := RecordRun(n, false, []);
      if !ok { Fail(n); return; }
      EndFailed(n, Environment);
    }

    /** A run that cannot even start: no attempt, the task failed if the store takes it, and the policy
        class when it was the runner's own rules that refused it. */
    method FailSetup(refused: bool)
      requires before == stored && IsStart(c, stored, result, log)
      modifies this
      ensures Ended(c, env, before, State()) && result.attempt == 0 && log.calls == [] && !result.passed
      ensures result.kind == if refused then Policy else NoClass
      ensures result.status == if c.readOnly || env(0).failTo then Some(Status.Failed) else None
    {
      if refused { result := result.(kind := Policy); }
      Fail(0);
    }

    /** The whole run. */
    method Run() returns (err: bool)
      requires c.maxAttempts >= 1 && before == stored && IsStart(c, stored, result, log) && agent.question == None
      requires Keeps()
      modifies this, agent
      ensures Ended(c, env, before, State())
      ensures NoTool(c) ==> err && result.attempt == 1 && result.kind == if env(1).recorded then Environment else NoClass
      // One driver call an attempt, and one more if and only if a resume failed; none without a program.
      ensures |log.calls| == if NoTool(c) then 0 else result.attempt + (if c.resume && FallsBack(env(1)) then 1 else 0)
      ensures !c.readOnly && !c.toolMissing ==> AskEnds(c, env, State(), err)
      ensures c.readOnly ==> Refused(c, env, State())
      // The last attempt is the first that does not continue, and the run passes as it does.
      ensures c.readOnly || !c.toolMissing ==> GoesOn(c, env, result.attempt) && !Continues(c, env, result.attempt)
                                               && (result.passed <==> Passes(c, env, result.attempt))
                                               && result.kind == FinalKind(c, env, result.attempt)
      // The question is what the agent asked last, in its own words unless they look like a secret.
      ensures result.question.Some? ==> AsksLast(MessagesOf(c, env, result.attempt), result.question.value, agent.secrets, agent.patterns)
      ensures err <==> !result.passed && result.question == None
    {
      Starts(c, env, State());
      if !c.readOnly && c.toolMissing {
        err := FailEnvironment(1);
        CallsAreCounted(c, env, 1);
        return;
      }
      err := Attempts();
      if result.question.Some? { AsksWith(MessagesOf(c, env, result.attempt), result.question.value, keep, agent); }
      CallsAreCounted(c, env, result.attempt);
    }

    /** The loop over the attempts. */
    method Attempts() returns (err: bool)
      requires c.maxAttempts >= 1 && !NoTool(c) && Between(c, env, before, State(), 0) && agent.question == None
      requires Keeps()
      modifies this, agent
      ensures GoesOn(c, env, result.attempt) && !Continues(c, env, result.attempt)
      ensures Over(c, env, before, keep, State(), err, result.attempt)
    {
      var n := 1;
      while n <= c.maxAttempts
        invariant 1 <= n <= c.maxAttempts && Between(c, env, before, State(), n - 1)
        invariant agent.question == AskedWith(keep, Late(env, n))
        invariant !c.readOnly ==> Quiet(c, env, n - 1)
        invariant GoesOn(c, env, n)
      {
        var again;
        again, err := Turn(n);
        if !again { return; }
        n := n + 1;
        assert Late(env, n) == env(n - 1).late;
      }
      // "attempts exhausted" is never answered.
      assert false;
    }
  }
}
