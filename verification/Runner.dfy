/** One run of a task (runner/runner.go, work.go): which runs are admitted, the set-up that may fail,
    the attempts, and what is reported of it. */
module Runner {
  import opened Wrappers
  import opened Tasks
  import opened AgentLink
  import opened RetryPolicy
  import opened AttemptLoop
  import Queue

  datatype RunKind = Implement | ReviewReport | ReviewFix | Hunt

  predicate ReadOnly(k: RunKind) { k == Hunt || k == ReviewReport }

  /** What the claim asks for, and the options of the runner. */
  datatype Work = Work(kind: RunKind, comments: bool, continuation: bool, sessionFits: bool,
                       option: int, taskField: Option<int>, manifestField: Option<int>)

  /** What the steps around the attempts meet. */
  datatype Setup = Setup(orphan: bool, toReady: bool, loaded: bool, toRunning: bool, ready: bool, refused: bool, start: nat, toolMissing: bool,
                         estimate: int -> real)

  /** The runs that may take a task out of review again. */
  predicate Repairs(w: Work) { w.kind == ReviewFix || w.comments }

  /** The move that brings a task to ready before anything else is looked at. */
  predicate Prepares(w: Work, s: Setup, status: Status) {
    !ReadOnly(w.kind) && s.toReady
    && ((status == Running && s.orphan) || (status == Blocked && w.continuation) || (status == Review && Repairs(w)))
  }

  /** A field that holds a positive number. */
  predicate IsSet(field: Option<int>) { field.Some? && field.value > 0 }

  /** The operator's number, else the task's, else the manifest's, else three. */
  function MaxAttempts(w: Work): (n: nat)
    ensures n >= 1 && (w.option > 0 ==> n == w.option)
    ensures w.option <= 0 && IsSet(w.taskField) ==> Some(n) == w.taskField
    ensures w.option <= 0 && !IsSet(w.taskField) && IsSet(w.manifestField) ==> Some(n) == w.manifestField
    ensures w.option <= 0 && !IsSet(w.taskField) && !IsSet(w.manifestField) ==> n == 3
  {
    if w.option > 0 then w.option
    else
      var ofTask := FieldInt(w.taskField, 0);
      if ofTask > 0 then ofTask
      else
        var ofManifest := FieldInt(w.manifestField, 0);
        if ofManifest > 0 then ofManifest else 3
  }

  /** Up to and with moveRunning. The task's own dependencies are looked up in the store. */
  method Admit(w: Work, s: Setup, t: Queue.Task, store: Queue.Store, siblings: Queue.Siblings)
    returns (admitted: bool, stored: Status)
    ensures ReadOnly(w.kind) ==> stored == t.status && admitted == s.loaded
    ensures !ReadOnly(w.kind) ==>
              (admitted <==> s.loaded && s.toRunning && (t.status == Ready || Prepares(w, s, t.status)) && Queue.Unblocked(t, store, siblings))
    ensures admitted && !ReadOnly(w.kind) ==> stored == Running
    ensures !admitted ==> stored == if Prepares(w, s, t.status) then Ready else t.status
    // "Not run and left where it was" holds exactly when no preparing move was made.
    ensures !admitted ==> (stored == t.status <==> !Prepares(w, s, t.status))
  {
    stored := t.status;
    if !ReadOnly(w.kind) {
      if stored == Running && s.orphan && s.toReady { stored := Ready; }
      if stored == Blocked && w.continuation && s.toReady { stored := Ready; }
      if stored == Review && Repairs(w) && s.toReady { stored := Ready; }
      if stored != Ready { return false, stored; }
    }
    if !s.loaded { return false, stored; }
    if !ReadOnly(w.kind) {
      var blocked := Queue.Blocker(t, store, siblings);
      if blocked.Some? || !s.toRunning { return false, stored; }
      stored := Running;
    }
    admitted := true;
  }

  /** It does fail: an orphan whose dependency is not done is not run, and is left ready. */
  method AnOrphanIsNotLeftWhereItWas() returns (w: Work, s: Setup, t: Queue.Task, admitted: bool, stored: Status)
    ensures !admitted && t.status == Running && stored == Ready
  {
    w := Work(Implement, false, false, false, 0, None, None);
    s := Setup(true, true, true, true, true, false, 0, false, tokens => 0.0);
    t := Queue.Task("TASK-002", Running, [Queue.Local("TASK-001")]);
    var store: Queue.Store := map["TASK-001" := Queue.Task("TASK-001", Draft, []), "TASK-002" := t];
    assert Queue.Local("TASK-001") in t.dependsOn && !Queue.Satisfied(Queue.Local("TASK-001"), store, (alias, id) => false);
    admitted, stored := Admit(w, s, t, store, (alias, id) => false);
  }

  /** Runner.Next: the task the queue answers is never refused for its dependencies on an unchanged
      store, only when something cannot be loaded or moved. */
  method Next(w: Work, s: Setup, tasks: seq<Queue.Task>, siblings: Queue.Siblings, ghost listed: Queue.Store)
    returns (id: Option<string>, admitted: bool)
    requires Queue.Listing(tasks, listed) && !ReadOnly(w.kind)
    ensures id.Some? <==> exists x :: Queue.CanStart(listed, siblings, x)
    ensures id.Some? ==> Queue.CanStart(listed, siblings, id.value) && (admitted <==> s.loaded && s.toRunning)
    ensures id.None? ==> !admitted
  {
    var answer := Queue.Next(tasks, siblings, listed);
    if !answer.Item? { return None, false; }
    Queue.ListedOnce(tasks, listed);
    var store := Queue.BuildStore(tasks);
    Queue.SameStore(tasks, store, listed);
    var stored;
    admitted, stored := Admit(w, s, store[answer.id], store, siblings);
    id := Some(answer.id);
  }

  // What is reported

  datatype Finding = Finding(title: string, area: string, style: string)

  datatype Report = Report(findings: seq<Finding>, verdict: string, replies: seq<string>, artifacts: seq<string>)

  datatype Published = Published(replies: seq<string>, artifacts: seq<string>,
                                 review: Option<(string, seq<Finding>)>, findings: seq<Finding>)

  const NOTHING_PUBLISHED := Published([], [], None, [])

  /** attachReport: a read-only run refused by policy publishes nothing; a review always has a verdict;
      a hunt's findings carry its area and style. */
  method AttachReport(kind: RunKind, failure: Class, report: Report, area: string, style: string) returns (p: Published)
    ensures failure == Policy && ReadOnly(kind) ==> p == NOTHING_PUBLISHED
    ensures failure != Policy || !ReadOnly(kind) ==>
              && p.replies == report.replies && p.artifacts == report.artifacts
              && (p.review.Some? <==> kind in {ReviewReport, ReviewFix})
              && (p.review.Some? ==> p.review.value.1 == report.findings && p.review.value.0 != "" &&
                                     (report.verdict != "" ==> p.review.value.0 == report.verdict) &&
                                     (report.verdict == "" ==> p.review.value.0 == if report.findings != [] then "changes" else "pass"))
              && (kind != Hunt ==> p.findings == [])
              && (kind == Hunt ==> |p.findings| == |report.findings| && forall i :: 0 <= i < |p.findings| ==>
                                     p.findings[i] == Finding(report.findings[i].title, area, style))
  {
    if failure == Policy && ReadOnly(kind) { return NOTHING_PUBLISHED; }
    p := Published(report.replies, report.artifacts, None, []);
    match kind
    case ReviewReport | ReviewFix =>
      var verdict := report.verdict;
      if verdict == "" {
        verdict := "pass";
        if |report.findings| > 0 { verdict := "changes"; }
      }
      p := p.(review := Some((verdict, report.findings)));
    case Hunt =>
      var findings := report.findings;
      for i := 0 to |findings|
        invariant |findings| == |report.findings|
        invariant forall k :: 0 <= k < i ==> findings[k] == Finding(report.findings[k].title, area, style)
        invariant forall k :: i <= k < |findings| ==> findings[k] == report.findings[k]
      {
        findings := findings[i := findings[i].(area := area, style := style)];
      }
      p := p.(findings := findings);
    case Implement =>
  }

  // The whole

  /** The set-up of a claim's loop: read-only for a hunt and for a review in report mode, resumed for the
      answer to a question of this driver, failures judged by the retry policy. */
  ghost predicate SetUp(w: Work, s: Setup, c: Config) {
    && (c.readOnly <==> w.kind == Hunt || w.kind == ReviewReport)
    && c.maxAttempts == MaxAttempts(w)
    && (c.resume <==> w.continuation && w.sessionFits && w.kind != Hunt && w.kind != ReviewReport)
    && c.toolMissing == s.toolMissing && c.start == s.start && c.estimate == s.estimate
    && forall f :: c.judge(f) == Classify(f)
  }

  /** A task that may run: ready, or an orphan, an answered question or a repair that was made ready. */
  ghost predicate MadeReady(w: Work, s: Setup, status: Status) {
    s.toReady && ((status == Running && s.orphan) || (status == Blocked && w.continuation)
                  || (status == Review && (w.kind == ReviewFix || w.comments)))
  }

  /** What a run that was not refused reports: replies and artifacts; for a review its verdict, said or
      drawn from its findings, and the findings; for a hunt its findings with their area and style. */
  ghost predicate Reports(kind: RunKind, report: Report, area: string, style: string, p: Published) {
    && p.replies == report.replies && p.artifacts == report.artifacts
    && (kind == Implement ==> p.review == None && p.findings == [])
    && (kind == ReviewReport || kind == ReviewFix ==>
          p.findings == [] &&
          p.review == Some((if report.verdict != "" then report.verdict else if report.findings == [] then "pass" else "changes", report.findings)))
    && (kind == Hunt ==>
          && p.review == None && |p.findings| == |report.findings|
          && forall i :: 0 <= i < |p.findings| ==>
               p.findings[i].title == report.findings[i].title && p.findings[i].area == area && p.findings[i].style == style)
  }

  /** For every task, claim and environment: what a run leaves, from admission to report. */
  method Run(w: Work, s: Setup, t: Queue.Task, store: Queue.Store, siblings: Queue.Siblings, env: Environment,
             agent: AgentSession, report: Report, area: string, style: string)
    returns (loop: Option<Loop>, stored: Status, err: bool, published: Published)
    requires agent.question == None
    modifies agent
    // Not admitted, or run as it was set up.
    ensures loop.Some? <==>
            s.loaded && (w.kind == Hunt || w.kind == ReviewReport ||
                         ((t.status == Ready || MadeReady(w, s, t.status)) && Queue.Unblocked(t, store, siblings) && s.toRunning))
    ensures loop.None? ==> err && published == Published([], [], None, [])
    ensures loop.None? ==> stored == if w.kind != Hunt && w.kind != ReviewReport && MadeReady(w, s, t.status) then Ready else t.status
    ensures loop.Some? ==> stored == loop.value.stored && SetUp(w, s, loop.value.c)
                           && Ended(loop.value.c, env, loop.value.before, loop.value.State())
    ensures loop.Some? && !ReadOnly(w.kind) ==> Queue.Unblocked(t, store, siblings)
    ensures ReadOnly(w.kind) ==> stored == t.status
    ensures loop.Some? && ReadOnly(w.kind) ==> Refused(loop.value.c, env, loop.value.State())
    // A set-up that fails runs and reports nothing; a loop that ran ends as its last attempt decides.
    ensures loop.Some? && !s.ready ==> err && published == Published([], [], None, []) && loop.value.result.attempt == 0
    ensures loop.Some? && s.ready && (ReadOnly(w.kind) || !s.toolMissing) ==>
              var n := loop.value.result.attempt;
              GoesOn(loop.value.c, env, n) && !Continues(loop.value.c, env, n) && (loop.value.result.passed <==> Passes(loop.value.c, env, n))
    ensures loop.Some? && !ReadOnly(w.kind) && !s.toolMissing ==> AskEnds(loop.value.c, env, loop.value.State(), err)
    ensures loop.Some? && s.ready ==> (err <==> !loop.value.result.passed && loop.value.result.question == None)
    ensures loop.Some? && loop.value.result.question.Some? ==>
              AsksLast(MessagesOf(loop.value.c, env, loop.value.result.attempt), loop.value.result.question.value, agent.secrets, agent.patterns)
    // What it reports: nothing when it was refused for changing something, everything otherwise.
    ensures loop.Some? && s.ready ==>
              if loop.value.result.kind == Policy && (w.kind == Hunt || w.kind == ReviewReport) then published == Published([], [], None, [])
              else Reports(w.kind, report, area, style, published)
  {
    var admitted;
    admitted, stored := Admit(w, s, t, store, siblings);
    if !admitted { return None, stored, true, NOTHING_PUBLISHED; }
    var resume := w.continuation && !ReadOnly(w.kind) && w.sessionFits;
    var c := Config(ReadOnly(w.kind), MaxAttempts(w), resume, s.toolMissing, s.estimate, s.start, Classify);
    var l := new Loop(c, env, agent, stored);
    if !s.ready {
      l.FailSetup(s.refused);
      return Some(l), l.stored, true, NOTHING_PUBLISHED;
    }
    err := l.Run();
    published := AttachReport(w.kind, l.result.kind, report, area, style);
    return Some(l), l.stored, err, published;
  }
}
