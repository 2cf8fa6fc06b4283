/** The deployment executor (deployer/deployer.go), proved against the plan of a profile. Programs
    and health endpoints are an environment: the answer to the n-th command run, the n-th check. */
module Deployer {
  import opened Wrappers
  import opened Text
  import opened Redact

  datatype Step = Step(name: string, argv: seq<string>, onFail: string)
  datatype Migration = Migration(argv: seq<string>, downgrade: seq<string>, reversible: bool)
  datatype HealthCheck = HealthCheck(name: string, url: string)
  datatype Profile = Profile(deploy: seq<string>, rollback: seq<string>, steps: seq<Step>, migrate: Option<Migration>,
                             health: seq<HealthCheck>, healthURL: string)

  /** A process's environment, in the order it is handed over. */
  type Vars = seq<(string, string)>

  datatype Kind = DeployStep | Migrate | RollbackImage | RollbackMigration
  datatype Command = Command(kind: Kind, name: string, argv: seq<string>, vars: Vars)

  datatype HealthAnswer = NoRequest(reason: string) | NoResponse(reason: string) | Status(code: int, text: string)

  /** The n-th command's exit, its output, the line logged of it, why it failed, and the order in which
      the secrets come; the line logged of the n-th health check, and its answer. */
  datatype Env = Env(exit: nat -> int, output: nat -> string, header: nat -> string, reason: nat -> string,
                     healthLine: nat -> string, order: nat -> seq<string>, health: nat -> HealthAnswer)

  datatype Result = Result(passed: bool, log: string, health: string, error: string)

  predicate IsSwitch(name: string) { Lower(TrimSpace(name)) == "switch" }

  predicate NoProgram(argv: seq<string>) { argv == [] || TrimSpace(argv[0]) == "" }

  // The plan: what a deployment is meant to do

  /** An action the executor is willing to start: a program to call and an `on_fail` it knows. */
  datatype Action = Action(command: Command, allowed: bool)

  function StepsOf(p: Profile): seq<Step> {
    if p.steps == [] && p.deploy != [] then [Step("deploy", p.deploy, "abort")] else p.steps
  }

  function NameOf(s: Step, index: nat): string {
    if TrimSpace(s.name) == "" then "step-" + Decimal(index + 1) else s.name
  }

  function StepAction(s: Step, index: nat, vars: Vars): Action {
    Action(Command(DeployStep, NameOf(s, index), s.argv, vars), (s.onFail == "" || s.onFail == "abort") && !NoProgram(s.argv))
  }

  function MigrateAction(m: Migration, vars: Vars): Action {
    Action(Command(Migrate, "migrate", m.argv, vars), !NoProgram(m.argv))
  }

  function StepActions(steps: seq<Step>, vars: Vars): (r: seq<Action>)
    ensures |r| == |steps| && forall i :: 0 <= i < |steps| ==> r[i] == StepAction(steps[i], i, vars)
  {
    seq(|steps|, i requires 0 <= i < |steps| => StepAction(steps[i], i, vars))
  }

  /** The gate is the first step called switch, else the last step. */
  ghost predicate IsGate(steps: seq<Step>, gate: nat) {
    && gate < |steps|
    && (forall i :: 0 <= i < gate ==> !IsSwitch(steps[i].name))
    && (IsSwitch(steps[gate].name) || (gate == |steps| - 1))
  }

  ghost predicate IsPlan(p: Profile, vars: Vars, plan: seq<Action>) {
    var steps := StepsOf(p);
    if p.migrate.None? then plan == StepActions(steps, vars)
    else exists gate: nat :: IsGate(steps, gate) && plan == PlanWith(steps, p.migrate, gate, vars)
  }

  function Commands(plan: seq<Action>): (r: seq<Command>)
    ensures |r| == |plan| && forall i :: 0 <= i < |plan| ==> r[i] == plan[i].command
  {
    seq(|plan|, i requires 0 <= i < |plan| => plan[i].command)
  }

  /** The first `n` actions of the plan were allowed and exited zero. */
  ghost predicate Succeeded(plan: seq<Action>, n: nat, exit: nat -> int) {
    n <= |plan| && forall i :: 0 <= i < n ==> plan[i].allowed && exit(i) == 0
  }

  /** `ran` is the plan up to the first action that was refused or failed; a refused one did not run. */
  ghost predicate FollowsPlan(plan: seq<Action>, ran: seq<Command>, exit: nat -> int) {
    exists n: nat ::
      && Succeeded(plan, n, exit)
      && (n < |plan| ==> !plan[n].allowed || exit(n) != 0)
      && ran == Commands(plan[..Started(plan, n)])
  }

  /** How many actions were started when the first `n` succeeded and no more did. */
  function Started(plan: seq<Action>, n: nat): (r: nat)
    requires n <= |plan|
    ensures r <= |plan|
  {
    if n < |plan| && plan[n].allowed then n + 1 else n
  }

  ghost predicate Healthy(p: Profile, health: nat -> HealthAnswer) {
    forall i :: 0 <= i < |Checks(p)| ==> Well(health(i))
  }

  function Checks(p: Profile): seq<HealthCheck> {
    if p.health == [] && p.healthURL != "" then [HealthCheck("health", p.healthURL)] else p.health
  }

  /** How many checks got a response: all up to the first that is not well, and that one too if it
      answered a status. */
  ghost predicate Responded(p: Profile, health: nat -> HealthAnswer, n: nat) {
    && n <= |Checks(p)|
    && (forall i :: 0 <= i < n ==> health(i).Status?) && (forall i :: 0 <= i < n - 1 ==> Well(health(i)))
    && (n == |Checks(p)| || !health(n).Status? || (n > 0 && !Well(health(n - 1))))
  }

  function CheckName(check: HealthCheck): string { if check.name == "" then "health" else check.name }

  function StatusLine(check: HealthCheck, answer: HealthAnswer): string {
    CheckName(check) + "=" + (if answer.Status? then answer.text else "")
  }

  /** The statuses of the first `n` checks, as they are joined in the result. */
  function HealthLine(checks: seq<HealthCheck>, health: nat -> HealthAnswer, n: nat): string
    requires n <= |checks|
  {
    if n == 0 then ""
    else if n == 1 then StatusLine(checks[0], health(0))
    else HealthLine(checks, health, n - 1) + ", " + StatusLine(checks[n - 1], health(n - 1))
  }

  const ACTION := "TRILHA_DEPLOY_ACTION"

  predicate Downgrades(p: Profile) {
    p.migrate.Some? && p.migrate.value.downgrade != [] && p.migrate.value.reversible
  }

  /** What a rollback is meant to do: the image, then a reversible migration's downgrade, both told that
      they are a rollback. */
  function RollbackPlan(p: Profile, vars: Vars): seq<Action> {
    var told := Replaced(vars, ACTION, "rollback");
    [Action(Command(RollbackImage, "rollback-image", p.rollback, told), !NoProgram(p.rollback))]
    + (if Downgrades(p)
       then [Action(Command(RollbackMigration, "rollback-migration", p.migrate.value.downgrade, told), !NoProgram(p.migrate.value.downgrade))]
       else [])
  }

  /** The exits of the commands after the first `n`. */
  function From(exit: nat -> int, n: nat): nat -> int { (i: nat) => exit(n + i) }

  /** `undone` is what a rollback runs after the first `n` commands, and `ok` whether it ends well. */
  ghost predicate RollsBack(p: Profile, vars: Vars, undone: seq<Command>, n: nat, exit: nat -> int, ok: bool) {
    var plan := RollbackPlan(p, vars);
    FollowsPlan(plan, undone, From(exit, n)) && (ok <==> Succeeded(plan, |plan|, From(exit, n)))
  }

  // The log, entry by entry

  /** What is written to the log: a command that ran, a health check that was made, or a note. */
  datatype LogEntry = Ran(n: nat) | Checked(n: nat) | Note(text: string)

  /** The commands in a log, in order. */
  function Rans(log: seq<LogEntry>): seq<nat> {
    if log == [] then []
    else Rans(log[..|log| - 1]) + if log[|log| - 1].Ran? then [log[|log| - 1].n] else []
  }

  function UpTo(n: nat): seq<nat> { if n == 0 then [] else UpTo(n - 1) + [n - 1] }

  lemma RansNext(log: seq<LogEntry>, e: LogEntry)
    ensures Rans(log + [e]) == Rans(log) + if e.Ran? then [e.n] else []
  {
    assert (log + [e])[..|log|] == log;
  }

  /** A command's line with its output, without the secrets; a check's line; a note. */
  function EntryText(e: LogEntry, env: Env): string {
    match e
    case Ran(n) => env.header(n) + RedactAll(env.output(n), env.order(n))
    case Checked(n) => env.healthLine(n)
    case Note(text) => text
  }

  function LogText(log: seq<LogEntry>, env: Env): string {
    if log == [] then "" else LogText(log[..|log| - 1], env) + EntryText(log[|log| - 1], env)
  }

  /** The text is the end of a redacted log that holds the first `n` commands, each once and in order. */
  ghost predicate Tells(text: string, env: Env, n: nat, secrets: seq<string>) {
    exists log :: Rans(log) == UpTo(n) && text == Limit(RedactAll(LogText(log, env), secrets))
  }

  // The code

  method MigrationPosition(steps: seq<Step>) returns (gate: nat)
    requires steps != []
    ensures IsGate(steps, gate)
  {
    for index := 0 to |steps|
      invariant forall i :: 0 <= i < index ==> !IsSwitch(steps[i].name)
    {
      if IsSwitch(steps[index].name) { return index; }
    }
    gate := if |steps| <= 1 then 0 else |steps| - 1;
  }

  /** One command: refused without a program, else run, logged with its output redacted. */
  method RunLogged(command: Command, env: Env, ran: seq<Command>, log: seq<LogEntry>)
    returns (err: Option<string>, ran': seq<Command>, log': seq<LogEntry>)
    ensures err.None? <==> !NoProgram(command.argv) && env.exit(|ran|) == 0
    ensures ran' == if NoProgram(command.argv) then ran else ran + [command]
    ensures Rans(log) == UpTo(|ran|) ==> Rans(log') == UpTo(|ran'|)
  {
    if NoProgram(command.argv) { return Some(command.name + " has no argv"), ran, log; }
    RansNext(log, Ran(|ran|));
    log' := log + [Ran(|ran|)];
    err := if env.exit(|ran|) == 0 then None else Some(command.name + " failed: " + env.reason(|ran|));
    ran' := ran + [command];
  }

  /** The rollback follows its plan; its commands come after `ran`. */
  method ExecuteRollback(p: Profile, vars: Vars, env: Env, ran: seq<Command>, log: seq<LogEntry>)
    returns (err: Option<string>, undone: seq<Command>, log': seq<LogEntry>)
    requires Rans(log) == UpTo(|ran|)
    ensures RollsBack(p, vars, undone, |ran|, env.exit, err.None?)
    ensures Rans(log') == UpTo(|ran| + |undone|)
  {
    if |p.rollback| == 0 {
      RefusedRollback(p, vars, |ran|, env.exit);
      return Some("deployment profile has no rollback command"), [], log;
    }
    var told := ReplaceEnvironment(vars, ACTION, "rollback");
    err, undone, log' := Image(p, vars, told, env, ran, log);
    if err.Some? || p.migrate.None? || |p.migrate.value.downgrade| == 0 { return; }
    if !p.migrate.value.reversible {
      var note := Note("rollback-migration skipped: migration is not reversible; image-only rollback\n");
      RansNext(log', note);
      log' := log' + [note];
      return;
    }
    err, undone, log' := Downgrade(p, vars, told, env, ran, log');
  }

  method Image(p: Profile, vars: Vars, told: Vars, env: Env, ran: seq<Command>, log: seq<LogEntry>)
    returns (err: Option<string>, undone: seq<Command>, log': seq<LogEntry>)
    requires Rans(log) == UpTo(|ran|) && told == Replaced(vars, ACTION, "rollback")
    ensures err.None? <==> !NoProgram(p.rollback) && env.exit(|ran|) == 0
    ensures err.Some? || !Downgrades(p) ==> RollsBack(p, vars, undone, |ran|, env.exit, err.None?)
    ensures Rans(log') == UpTo(|ran| + |undone|) && (err.None? ==> |undone| == 1)
  {
    var all;
    err, all, log' := RunLogged(Command(RollbackImage, "rollback-image", p.rollback, told), env, ran, log);
    undone := all[|ran|..];
    ImageRun(p, vars, undone, |ran|, env.exit, err.None?);
  }

  /** After the image: the migration's downgrade. */
  method Downgrade(p: Profile, vars: Vars, told: Vars, env: Env, ran: seq<Command>, log: seq<LogEntry>)
    returns (err: Option<string>, undone: seq<Command>, log': seq<LogEntry>)
    requires Downgrades(p) && !NoProgram(p.rollback) && env.exit(|ran|) == 0 && told == Replaced(vars, ACTION, "rollback")
    requires Rans(log) == UpTo(|ran| + 1)
    ensures RollsBack(p, vars, undone, |ran|, env.exit, err.None?)
    ensures Rans(log') == UpTo(|ran| + |undone|)
  {
    var image := Command(RollbackImage, "rollback-image", p.rollback, told);
    var all;
    err, all, log' := RunLogged(Command(RollbackMigration, "rollback-migration", p.migrate.value.downgrade, told), env, ran + [image], log);
    undone := all[|ran|..];
    DowngradeRun(p, vars, undone, |ran|, env.exit, err.None?);
  }

  lemma RefusedRollback(p: Profile, vars: Vars, n: nat, exit: nat -> int)
    requires NoProgram(p.rollback)
    ensures RollsBack(p, vars, [], n, exit, false)
  {
    var plan := RollbackPlan(p, vars);
    assert !plan[0].allowed && Succeeded(plan, 0, From(exit, n)) && Commands(plan[..Started(plan, 0)]) == [];
  }

  /** After the image alone: the rollback is over when it failed, or when there is no downgrade to run. */
  lemma ImageRun(p: Profile, vars: Vars, undone: seq<Command>, n: nat, exit: nat -> int, ok: bool)
    requires var plan := RollbackPlan(p, vars); undone == if plan[0].allowed then [plan[0].command] else []
    requires ok <==> !NoProgram(p.rollback) && exit(n) == 0
    ensures !ok || !Downgrades(p) ==> RollsBack(p, vars, undone, n, exit, ok)
  {
    var plan, after := RollbackPlan(p, vars), From(exit, n);
    assert after(0) == exit(n);
    if !ok {
      assert Succeeded(plan, 0, after) && undone == Commands(plan[..Started(plan, 0)]);
    } else if !Downgrades(p) {
      assert Succeeded(plan, 1, after) && undone == Commands(plan[..Started(plan, 1)]);
    }
  }

  lemma DowngradeRun(p: Profile, vars: Vars, undone: seq<Command>, n: nat, exit: nat -> int, ok: bool)
    requires Downgrades(p) && !NoProgram(p.rollback) && exit(n) == 0
    requires var plan := RollbackPlan(p, vars);
             undone == [plan[0].command] + if plan[1].allowed then [plan[1].command] else []
    requires ok <==> !NoProgram(p.migrate.value.downgrade) && exit(n + 1) == 0
    ensures RollsBack(p, vars, undone, n, exit, ok)
  {
    var plan, after := RollbackPlan(p, vars), From(exit, n);
    assert after(0) == exit(n) && after(1) == exit(n + 1);
    var k := if ok then 2 else 1;
    assert Succeeded(plan, k, after) && undone == Commands(plan[..Started(plan, k)]);
  }

  predicate Well(a: HealthAnswer) { a.Status? && 200 <= a.code < 400 }

  /** The statuses of the checks that got a response, and no others. */
  ghost predicate TellsHealth(text: string, p: Profile, env: Env) {
    exists n: nat :: Responded(p, env.health, n) && text == HealthLine(Checks(p), env.health, n)
  }

  /** Why a check's answer fails the deployment, if it does. */
  method Judge(check: HealthCheck, a: HealthAnswer) returns (err: Option<string>)
    ensures err.None? <==> Well(a)
  {
    match a
    case NoRequest(reason) => err := Some(reason);
    case NoResponse(reason) => err := Some("health " + CheckName(check) + " failed: " + reason);
    case Status(code, text) => err := if code < 200 || code >= 400 then Some("health check failed: " + StatusLine(check, a)) else None;
  }

  method CheckHealth(p: Profile, env: Env, log: seq<LogEntry>) returns (err: Option<string>, answered: nat, log': seq<LogEntry>)
    ensures Rans(log') == Rans(log)
    ensures err.None? <==> Healthy(p, env.health)
    ensures Responded(p, env.health, answered)
  {
    var checks := Checks(p);
    answered, log' := 0, log;
    for n := 0 to |checks|
      invariant Rans(log') == Rans(log) && answered == n
      invariant forall i :: 0 <= i < n ==> Well(env.health(i))
    {
      if !env.health(n).NoRequest? {
        RansNext(log', Checked(n));
        log' := log' + [Checked(n)];
      }
      if env.health(n).Status? { answered := n + 1; }
      err := Judge(checks[n], env.health(n));
      if err.Some? { return; }
    }
    err := None;
  }

  /** The statuses, joined. */
  method JoinStatuses(p: Profile, env: Env, answered: nat) returns (health: string)
    requires Responded(p, env.health, answered)
    ensures TellsHealth(health, p, env)
  {
    health := "";
    for n := 0 to answered
      invariant health == HealthLine(Checks(p), env.health, n)
    {
      var status := StatusLine(Checks(p)[n], env.health(n));
      health := if n == 0 then status else health + ", " + status;
    }
  }

  /** The plan with the migration, if any, at position `gate`. */
  function PlanWith(steps: seq<Step>, migrate: Option<Migration>, gate: nat, vars: Vars): seq<Action>
    requires gate <= |steps|
  {
    var all := StepActions(steps, vars);
    if migrate.None? then all else all[..gate] + [MigrateAction(migrate.value, vars)] + all[gate..]
  }

  /** Where the actions are in a plan. */
  ghost predicate PlanShape(plan: seq<Action>, steps: seq<Step>, migrate: Option<Migration>, gate: nat, vars: Vars) {
    && |plan| == |steps| + (if migrate.Some? then 1 else 0)
    && (migrate.Some? ==> gate < |plan| && plan[gate] == MigrateAction(migrate.value, vars))
    && forall index :: 0 <= index < |steps| ==> InPlan(plan, steps, migrate, gate, vars, index)
  }

  ghost predicate InPlan(plan: seq<Action>, steps: seq<Step>, migrate: Option<Migration>, gate: nat, vars: Vars, index: nat)
    requires index < |steps|
  {
    var at := if migrate.Some? && index >= gate then index + 1 else index;
    at < |plan| && plan[at] == StepAction(steps[index], index, vars)
  }

  lemma TakePlan(p: Profile, vars: Vars, gate: nat) returns (plan: seq<Action>)
    requires IsGate(StepsOf(p), gate)
    ensures IsPlan(p, vars, plan) && PlanShape(plan, StepsOf(p), p.migrate, gate, vars)
  {
    plan := PlanWith(StepsOf(p), p.migrate, gate, vars);
    ShapeOf(StepsOf(p), p.migrate, gate, vars);
  }

  lemma ShapeOf(steps: seq<Step>, migrate: Option<Migration>, gate: nat, vars: Vars)
    requires gate < |steps|
    ensures PlanShape(PlanWith(steps, migrate, gate, vars), steps, migrate, gate, vars)
  {
    var plan, all := PlanWith(steps, migrate, gate, vars), StepActions(steps, vars);
    forall index | 0 <= index < |steps| ensures InPlan(plan, steps, migrate, gate, vars, index) {
      if migrate.Some? && index >= gate { assert plan[index + 1] == all[gate..][index - gate]; }
    }
  }

  /** How far the plan has come after a step: it ran, or it ended the deployment. */
  ghost predicate Advanced(plan: seq<Action>, n: nat, ran: seq<Command>, exit: nat -> int, ok: bool) {
    && n < |plan|
    && (ok <==> plan[n].allowed && exit(n) == 0)
    && ran == Commands(plan[..n]) + if plan[n].allowed then [plan[n].command] else []
  }

  method RunStep(step: Step, index: nat, vars: Vars, env: Env, before: seq<Command>, log: seq<LogEntry>, ghost plan: seq<Action>)
    returns (err: Option<string>, ran: seq<Command>, log': seq<LogEntry>)
    requires |before| < |plan| && plan[|before|] == StepAction(step, index, vars) && before == Commands(plan[..|before|])
    requires Rans(log) == UpTo(|before|)
    ensures Advanced(plan, |before|, ran, env.exit, err.None?)
    ensures Rans(log') == UpTo(|ran|)
  {
    var name := step.name;
    if TrimSpace(name) == "" { name := "step-" + Decimal(index + 1); }
    if step.onFail != "" && step.onFail != "abort" {
      return Some("step " + name + " has unsupported on_fail \"" + step.onFail + "\""), before, log;
    }
    err, ran, log' := RunLogged(Command(DeployStep, name, step.argv, vars), env, before, log);
  }

  method RunMigration(m: Migration, vars: Vars, env: Env, before: seq<Command>, log: seq<LogEntry>, ghost plan: seq<Action>)
    returns (err: Option<string>, ran: seq<Command>, log': seq<LogEntry>)
    requires |before| < |plan| && plan[|before|] == MigrateAction(m, vars) && before == Commands(plan[..|before|])
    requires Rans(log) == UpTo(|before|)
    ensures Advanced(plan, |before|, ran, env.exit, err.None?)
    ensures Rans(log') == UpTo(|ran|)
  {
    err, ran, log' := RunLogged(Command(Migrate, "migrate", m.argv, vars), env, before, log);
    if err.Some? { err := Some("migration failed; switch aborted: " + err.value); }
  }

  /** Everything run so far is a successful prefix of the plan. */
  ghost predicate Progress(plan: seq<Action>, ran: seq<Command>, exit: nat -> int) {
    |ran| <= |plan| && ran == Commands(plan[..|ran|]) && Succeeded(plan, |ran|, exit)
  }

  method RunSteps(steps: seq<Step>, migrate: Option<Migration>, gate: nat, vars: Vars, env: Env, ghost plan: seq<Action>)
    returns (err: Option<string>, ran: seq<Command>, log: seq<LogEntry>)
    requires gate < |steps| && PlanShape(plan, steps, migrate, gate, vars)
    ensures FollowsPlan(plan, ran, env.exit)
    ensures err.None? <==> Succeeded(plan, |plan|, env.exit)
    ensures Rans(log) == UpTo(|ran|)
    ensures err.None? ==> ran == Commands(plan)
  {
    var migrationRan := false;
    err, ran, log := None, [], [];
    for index := 0 to |steps|
      invariant migrationRan <==> migrate.Some? && index > gate
      invariant |ran| == if migrationRan then index + 1 else index
      invariant Progress(plan, ran, env.exit) && Rans(log) == UpTo(|ran|)
    {
      assert InPlan(plan, steps, migrate, gate, vars, index);
      ghost var n := |ran|;
      if migrate.Some? && index == gate {
        err, ran, log := RunMigration(migrate.value, vars, env, ran, log, plan);
        if err.Some? { StoppedAt(plan, n, ran, env.exit); return; }
        NextRan(plan, n, ran, env.exit);
        migrationRan := true;
        n := n + 1;
      }
      err, ran, log := RunStep(steps[index], index, vars, env, ran, log, plan);
      if err.Some? { StoppedAt(plan, n, ran, env.exit); return; }
      NextRan(plan, n, ran, env.exit);
    }
    // The source runs a migration that has not run yet here: there is none.
    assert migrate.Some? ==> migrationRan;
    err := None;
    WholePlan(plan, ran, env.exit);
  }

  /** The steps with the migration at its gate. */
  method RunPlan(p: Profile, vars: Vars, env: Env) returns (err: Option<string>, ran: seq<Command>, log: seq<LogEntry>, ghost plan: seq<Action>)
    requires StepsOf(p) != []
    ensures IsPlan(p, vars, plan) && FollowsPlan(plan, ran, env.exit)
    ensures err.None? <==> Succeeded(plan, |plan|, env.exit)
    ensures SpelledOut(p, vars, ran)
    ensures Rans(log) == UpTo(|ran|)
    ensures err.None? ==> ran == Commands(plan)
  {
    var gate := MigrationPosition(StepsOf(p));
    plan := TakePlan(p, vars, gate);
    err, ran, log := RunSteps(StepsOf(p), p.migrate, gate, vars, env, plan);
    PlanInWords(p, vars, plan, ran, env.exit);
  }

  lemma WholePlan(plan: seq<Action>, ran: seq<Command>, exit: nat -> int)
    requires |ran| == |plan| && Progress(plan, ran, exit)
    ensures FollowsPlan(plan, ran, exit) && ran == Commands(plan)
  {
    assert plan[..|plan|] == plan;
    assert Started(plan, |ran|) == |plan|;
  }

  lemma StoppedAt(plan: seq<Action>, n: nat, ran: seq<Command>, exit: nat -> int)
    requires Succeeded(plan, n, exit) && Advanced(plan, n, ran, exit, false)
    ensures FollowsPlan(plan, ran, exit) && !Succeeded(plan, |plan|, exit)
  {
    assert plan[..n + 1] == plan[..n] + [plan[n]];
    assert ran == Commands(plan[..Started(plan, n)]);
  }

  lemma NextRan(plan: seq<Action>, n: nat, ran: seq<Command>, exit: nat -> int)
    requires Succeeded(plan, n, exit) && Advanced(plan, n, ran, exit, true)
    ensures |ran| == n + 1 && Progress(plan, ran, exit)
  {
    assert plan[..n + 1] == plan[..n] + [plan[n]];
  }

  const MAX_LOG := 0x10_0000

  function Limit(value: string): string {
    if |value| <= MAX_LOG then value else value[|value| - MAX_LOG..]
  }

  /** Nothing of a secret that cannot overlap the mask. */
  ghost predicate Hides(text: string, secrets: seq<string>) {
    forall s :: s in secrets && !Overlaps(s) ==> !Contains(text, s)
  }

  /** The log, cut to its end, and the error are redacted; the health line is not. */
  method DeployResult(log: seq<LogEntry>, env: Env, health: string, err: Option<string>, secrets: seq<string>, ghost n: nat) returns (r: Result)
    requires Rans(log) == UpTo(n)
    ensures r.passed == err.None? && r.health == health && |r.log| <= MAX_LOG
    ensures Answered(r, env, n, secrets)
    ensures r.error == if err.None? then "" else RedactAll(err.value, secrets)
  {
    var text := WriteLog(log, env);
    var clean := RedactSecrets(text, secrets);
    r := Result(err.None?, Limit(clean), health, "");
    if err.Some? {
      var error := RedactSecrets(err.value, secrets);
      r := r.(error := error);
    } else {
      EmptyHides(secrets);
    }
    LimitHides(clean, secrets);
  }

  method WriteLog(log: seq<LogEntry>, env: Env) returns (text: string)
    ensures text == LogText(log, env)
  {
    text := "";
    for n := 0 to |log|
      invariant text == LogText(log[..n], env)
    {
      assert log[..n + 1][..n] == log[..n];
      text := text + EntryText(log[n], env);
    }
    assert log[..|log|] == log;
  }

  /** The end of a text holds no more than the text. */
  lemma LimitHides(clean: string, secrets: seq<string>)
    requires Hides(clean, secrets)
    ensures Hides(Limit(clean), secrets)
  {
    forall s | s in secrets && !Overlaps(s) ensures !Contains(Limit(clean), s) {
      if |clean| > MAX_LOG && Contains(Limit(clean), s) {
        assert clean[|clean| - MAX_LOG..] == clean[|clean| - MAX_LOG..|clean|];
        ContainsInSlice(clean, |clean| - MAX_LOG, |clean|, s);
      }
    }
  }

  lemma EmptyHides(secrets: seq<string>)
    ensures Hides("", secrets)
  {
    forall s | s in secrets && !Overlaps(s) ensures !Contains("", s) { NonEmpty(s); }
  }

  // The log and the health line in the environment's own terms

  /** The log is cut to its last megabyte. */
  lemma LimitIs(value: string)
    ensures |Limit(value)| == if |value| <= 1_048_576 then |value| else 1_048_576
    ensures Limit(value) == value[|value| - |Limit(value)|..]
  {}

  /** A command in the log has its line and its output there, without the secrets, after whatever was
      logged before it. */
  lemma LogHolds(log: seq<LogEntry>, env: Env, k: nat)
    requires k < |log| && log[k].Ran?
    ensures var n := log[k].n;
            LogText(log[..k], env) + (env.header(n) + RedactAll(env.output(n), env.order(n))) <= LogText(log, env)
  {
    assert log[..k + 1][..k] == log[..k];
    LogGrows(log, env, k + 1);
  }

  lemma {:induction false} LogGrows(log: seq<LogEntry>, env: Env, k: nat)
    requires k <= |log|
    ensures LogText(log[..k], env) <= LogText(log, env)
    decreases |log|
  {
    if k == |log| {
      assert log[..k] == log;
    } else {
      assert log[..|log| - 1][..k] == log[..k];
      LogGrows(log[..|log| - 1], env, k);
    }
  }

  /** One status a check, `name=status`, with the default name for a check that has none. */
  lemma {:induction false} HealthLineIs(checks: seq<HealthCheck>, health: nat -> HealthAnswer, n: nat)
    requires 0 < n <= |checks| && forall i :: 0 <= i < n ==> health(i).Status?
    ensures HealthLine(checks, health, n) == Joined(StatusLines(checks, health, n), ", ")
    ensures forall i :: 0 <= i < n ==>
              StatusLines(checks, health, n)[i] == (if checks[i].name == "" then "health" else checks[i].name) + "=" + health(i).text
  {
    if n > 1 {
      HealthLineIs(checks, health, n - 1);
      JoinedSnoc(StatusLines(checks, health, n - 1), StatusLine(checks[n - 1], health(n - 1)), ", ");
      assert StatusLines(checks, health, n) == StatusLines(checks, health, n - 1) + [StatusLine(checks[n - 1], health(n - 1))];
    }
  }

  function StatusLines(checks: seq<HealthCheck>, health: nat -> HealthAnswer, n: nat): (r: seq<string>)
    requires n <= |checks|
    ensures |r| == n
  {
    seq(n, i requires 0 <= i < n => StatusLine(checks[i], health(i)))
  }

  lemma {:induction false} JoinedSnoc(ps: seq<string>, last: string, separator: string)
    requires ps != []
    ensures Joined(ps + [last], separator) == Joined(ps, separator) + separator + last
    decreases |ps|
  {
    if |ps| > 1 {
      assert (ps + [last])[1..] == ps[1..] + [last];
      JoinedSnoc(ps[1..], last, separator);
    }
  }

  // The plan in the profile's own words

  /** A name that is switch, in any case, between white space. */
  ghost predicate SaysSwitch(name: string) {
    exists i: nat :: SwitchAt(name, i)
  }

  ghost predicate SwitchAt(name: string, i: nat) {
    && i + 6 <= |name|
    && (forall k :: 0 <= k < |name| && (k < i || i + 6 <= k) ==> IsSpace(name[k]))
    && (forall k :: 0 <= k < 6 ==> name[i + k] == "switch"[k] || name[i + k] == "SWITCH"[k])
  }

  lemma FoldsToSwitch(t: string)
    ensures Lower(t) == "switch" <==> |t| == 6 && forall k :: 0 <= k < 6 ==> t[k] == "switch"[k] || t[k] == "SWITCH"[k]
  {
    var small, capital := "switch", "SWITCH";
    forall k | 0 <= k < 6 ensures capital[k] as int + 32 == small[k] as int && 'a' <= small[k] <= 'z' && 'A' <= capital[k] <= 'Z' {}
    if |t| == 6 && forall k :: 0 <= k < 6 ==> t[k] == small[k] || t[k] == capital[k] {
      assert forall k :: 0 <= k < 6 ==> Lower(t)[k] == small[k];
    }
    if Lower(t) == small {
      forall k | 0 <= k < 6 ensures t[k] == small[k] || t[k] == capital[k] { assert Lower(t)[k] == small[k]; }
    }
  }

  lemma SwitchIsTheWord(name: string)
    ensures IsSwitch(name) <==> SaysSwitch(name)
  {
    var i, j := TrimKeepsTheWords(name);
    var t := TrimSpace(name);
    FoldsToSwitch(t);
    if IsSwitch(name) {
      assert j == i + 6 && forall k :: 0 <= k < 6 ==> name[i + k] == t[k];
      assert SwitchAt(name, i);
    }
    if n: nat :| SwitchAt(name, n) {
      SwitchHasNoSpace(name, n);
      assert i <= n < j;
      TrimsOnce(name, i, j, n, n + 6);
      assert forall k :: 0 <= k < 6 ==> t[k] == name[n + k];
    }
  }

  lemma SwitchHasNoSpace(name: string, n: nat)
    requires SwitchAt(name, n)
    ensures !IsSpace(name[n]) && !IsSpace(name[n + 5])
  {
    var small, capital := "switch", "SWITCH";
    assert small[0] == 's' && capital[0] == 'S' && small[5] == 'h' && capital[5] == 'H';
    assert name[n + 0] in {small[0], capital[0]} && name[n + 5] in {small[5], capital[5]};
  }

  /** The first step that is called switch, else the last; a profile with one command has one step. */
  ghost predicate GateInWords(p: Profile, gate: nat) {
    if p.steps == [] then gate == 0
    else && gate < |p.steps| && (forall i :: 0 <= i < gate ==> !SaysSwitch(p.steps[i].name))
         && (SaysSwitch(p.steps[gate].name) || gate == |p.steps| - 1)
  }

  lemma GateIs(p: Profile, gate: nat)
    requires IsGate(StepsOf(p), gate)
    ensures GateInWords(p, gate)
  {
    forall i | 0 <= i < |StepsOf(p)| ensures IsSwitch(StepsOf(p)[i].name) <==> SaysSwitch(StepsOf(p)[i].name) {
      SwitchIsTheWord(StepsOf(p)[i].name);
    }
  }

  /** The k-th step of the profile, or its one command. */
  ghost predicate IsStep(p: Profile, vars: Vars, c: Command, k: nat) {
    && c.kind == DeployStep && c.vars == vars
    && if p.steps == [] then k == 0 && c.name == "deploy" && c.argv == p.deploy
       else k < |p.steps| && c.argv == p.steps[k].argv
            && c.name == if TrimSpace(p.steps[k].name) == "" then "step-" + Decimal(k + 1) else p.steps[k].name
  }

  /** What ran are the steps in order, with the migration, if there is one, before the first step that is
      called switch, else before the last. */
  ghost predicate SpelledOut(p: Profile, vars: Vars, ran: seq<Command>) {
    if p.migrate.None? then forall i :: 0 <= i < |ran| ==> IsStep(p, vars, ran[i], i)
    else ran != [] ==> exists gate: nat :: GateInWords(p, gate) && Interleaves(p, vars, ran, gate)
  }

  ghost predicate Interleaves(p: Profile, vars: Vars, ran: seq<Command>, gate: nat)
    requires p.migrate.Some?
  {
    forall i :: 0 <= i < |ran| ==>
      if i == gate then ran[i].kind == Migrate && ran[i].argv == p.migrate.value.argv && ran[i].vars == vars
      else IsStep(p, vars, ran[i], if i < gate then i else i - 1)
  }

  /** What was undone are the profile's rollback, then its migration's downgrade. */
  ghost predicate UndoneInWords(p: Profile, undone: seq<Command>) {
    && |undone| <= 2
    && (|undone| > 0 ==> undone[0].kind == RollbackImage && undone[0].argv == p.rollback)
    && (|undone| > 1 ==> undone[1].kind == RollbackMigration && p.migrate.Some? && p.migrate.value.reversible && undone[1].argv == p.migrate.value.downgrade)
  }

  lemma StepInWords(p: Profile, vars: Vars, k: nat)
    requires k < |StepsOf(p)|
    ensures IsStep(p, vars, StepAction(StepsOf(p)[k], k, vars).command, k)
  {
    if p.steps == [] { assert TrimSpace("deploy") == "deploy"; }
  }

  lemma PlanInWords(p: Profile, vars: Vars, plan: seq<Action>, ran: seq<Command>, exit: nat -> int)
    requires IsPlan(p, vars, plan) && FollowsPlan(plan, ran, exit)
    ensures SpelledOut(p, vars, ran)
  {
    assert |ran| <= |plan| && forall i :: 0 <= i < |ran| ==> ran[i] == plan[i].command;
    if p.migrate.None? {
      forall i | 0 <= i < |ran| ensures IsStep(p, vars, ran[i], i) { StepInWords(p, vars, i); }
    } else {
      var gate: nat :| IsGate(StepsOf(p), gate) && plan == PlanWith(StepsOf(p), p.migrate, gate, vars);
      ShapeOf(StepsOf(p), p.migrate, gate, vars);
      PlacedInWords(p, vars, plan, gate);
      GateIs(p, gate);
      assert Interleaves(p, vars, ran, gate);
    }
  }

  lemma PlacedInWords(p: Profile, vars: Vars, plan: seq<Action>, gate: nat)
    requires p.migrate.Some? && PlanShape(plan, StepsOf(p), p.migrate, gate, vars)
    ensures forall i :: 0 <= i < |plan| ==>
              if i == gate then plan[i].command == Command(Migrate, "migrate", p.migrate.value.argv, vars)
              else IsStep(p, vars, plan[i].command, if i < gate then i else i - 1)
  {
    forall i | 0 <= i < |plan| && i != gate ensures IsStep(p, vars, plan[i].command, if i < gate then i else i - 1) {
      var k := if i < gate then i else i - 1;
      assert InPlan(plan, StepsOf(p), p.migrate, gate, vars, k);
      StepInWords(p, vars, k);
    }
  }

  lemma RollbackInWords(p: Profile, vars: Vars, undone: seq<Command>, n: nat, exit: nat -> int, ok: bool)
    requires RollsBack(p, vars, undone, n, exit, ok)
    ensures UndoneInWords(p, undone)
  {
    var plan := RollbackPlan(p, vars);
    var k: nat :| Succeeded(plan, k, From(exit, n)) && undone == Commands(plan[..Started(plan, k)]);
    assert forall i :: 0 <= i < |undone| ==> undone[i] == plan[i].command;
  }

  /** A program to call: its name is not blank. */
  ghost predicate Callable(argv: seq<string>) {
    argv != [] && exists i :: 0 <= i < |argv[0]| && !IsSpace(argv[0][i])
  }

  lemma CallableIs(argv: seq<string>)
    ensures Callable(argv) <==> !NoProgram(argv)
  {
    if argv != [] {
      var i, j := TrimKeepsTheWords(argv[0]);
      if TrimSpace(argv[0]) != "" { assert !IsSpace(argv[0][i]); }
    }
  }

  /** Every step has a program, and either aborts on failure or says nothing; so has the migration. */
  ghost predicate Runnable(p: Profile) {
    && (if p.steps == [] then Callable(p.deploy)
        else forall k :: 0 <= k < |p.steps| ==> Callable(p.steps[k].argv) && p.steps[k].onFail in ["", "abort"])
    && (p.migrate.Some? ==> Callable(p.migrate.value.argv))
  }

  /** How many commands the whole of a deployment takes. */
  function Calls(p: Profile): nat {
    (if p.steps == [] then 1 else |p.steps|) + if p.migrate.Some? then 1 else 0
  }

  ghost predicate AllAnswer(p: Profile, health: nat -> HealthAnswer) {
    forall i: nat :: i < (if p.health == [] then (if p.healthURL == "" then 0 else 1) else |p.health|) ==>
      health(i).Status? && 200 <= health(i).code <= 399
  }

  lemma PlanSucceeds(p: Profile, vars: Vars, plan: seq<Action>, exit: nat -> int)
    requires StepsOf(p) != [] && IsPlan(p, vars, plan)
    ensures |plan| == Calls(p)
    ensures Succeeded(plan, |plan|, exit) <==> Runnable(p) && forall i: nat :: i < Calls(p) ==> exit(i) == 0
  {
    var gate: nat := 0;
    if p.migrate.Some? { gate := GateOf(p, vars, plan); }
    ShapeOf(StepsOf(p), p.migrate, gate, vars);
    RunnableIs(p);
    AllowedIs(plan, StepsOf(p), p.migrate, gate, vars);
    AllAllowed(plan, exit);
  }

  lemma AllAllowed(plan: seq<Action>, exit: nat -> int)
    ensures Succeeded(plan, |plan|, exit) <==>
            (forall i :: 0 <= i < |plan| ==> plan[i].allowed) && forall i: nat :: i < |plan| ==> exit(i) == 0
  {}

  lemma RunnableIs(p: Profile)
    requires StepsOf(p) != []
    ensures Runnable(p) <==> AllStart(StepsOf(p), p.migrate)
  {
    if p.migrate.Some? { CallableIs(p.migrate.value.argv); }
    if p.steps == [] {
      CallableIs(p.deploy);
      assert StepsOf(p) == [Step("deploy", p.deploy, "abort")] && Starts(StepsOf(p)[0]) == !NoProgram(p.deploy);
    } else {
      forall k | 0 <= k < |p.steps| ensures Callable(p.steps[k].argv) && p.steps[k].onFail in ["", "abort"] <==> Starts(p.steps[k]) {
        CallableIs(p.steps[k].argv);
      }
    }
  }

  ghost predicate Starts(s: Step) { !NoProgram(s.argv) && s.onFail in ["", "abort"] }

  ghost predicate AllStart(steps: seq<Step>, migrate: Option<Migration>) {
    (migrate.Some? ==> !NoProgram(migrate.value.argv)) && forall k :: 0 <= k < |steps| ==> Starts(steps[k])
  }

  lemma GateOf(p: Profile, vars: Vars, plan: seq<Action>) returns (gate: nat)
    requires p.migrate.Some? && IsPlan(p, vars, plan)
    ensures IsGate(StepsOf(p), gate) && plan == PlanWith(StepsOf(p), p.migrate, gate, vars)
  {
    gate :| IsGate(StepsOf(p), gate) && plan == PlanWith(StepsOf(p), p.migrate, gate, vars);
  }

  lemma AllowedIs(plan: seq<Action>, steps: seq<Step>, migrate: Option<Migration>, gate: nat, vars: Vars)
    requires PlanShape(plan, steps, migrate, gate, vars)
    ensures (forall i :: 0 <= i < |plan| ==> plan[i].allowed) <==> AllStart(steps, migrate)
  {
    if forall i :: 0 <= i < |plan| ==> plan[i].allowed {
      forall k | 0 <= k < |steps| ensures Starts(steps[k]) {
        assert InPlan(plan, steps, migrate, gate, vars, k);
      }
    } else {
      var i :| 0 <= i < |plan| && !plan[i].allowed;
      if !migrate.Some? || i != gate {
        assert InPlan(plan, steps, migrate, gate, vars, if migrate.Some? && i > gate then i - 1 else i);
      }
    }
  }

  /** In the profile's own words: a deployment passes if and only if every step and the migration can be
      started, every command exits zero and every health check answers 200 to 399; then all of them ran
      and nothing was undone. A failed check alone, after all of them, leads to a rollback. */
  lemma PassedIs(p: Profile, vars: Vars, env: Env, plan: seq<Action>, ran: seq<Command>, undone: seq<Command>, passed: bool)
    requires StepsOf(p) != [] && Deployed(p, vars, env, plan, ran, undone, passed)
    ensures passed <==> Runnable(p) && (forall i: nat :: i < Calls(p) ==> env.exit(i) == 0) && AllAnswer(p, env.health)
    ensures passed ==> |ran| == Calls(p) && undone == []
    ensures undone != [] ==> |ran| == Calls(p) && (forall i: nat :: i < Calls(p) ==> env.exit(i) == 0) && !AllAnswer(p, env.health)
  {
    PlanSucceeds(p, vars, plan, env.exit);
    assert Healthy(p, env.health) <==> AllAnswer(p, env.health);
  }

  /** A rollback starts the profile's rollback if it can be started and, when that exits zero, the
      downgrade of a reversible migration that has one; it ends well if and only if both do. */
  lemma RollbackIs(p: Profile, vars: Vars, undone: seq<Command>, n: nat, exit: nat -> int, ok: bool)
    requires RollsBack(p, vars, undone, n, exit, ok)
    ensures var both := p.migrate.Some? && p.migrate.value.reversible && p.migrate.value.downgrade != [];
            && (|undone| >= 1 <==> Callable(p.rollback))
            && (|undone| == 2 <==> Callable(p.rollback) && exit(n) == 0 && both && Callable(p.migrate.value.downgrade))
            && |undone| <= 2
            && (ok <==> Callable(p.rollback) && exit(n) == 0 && (both ==> Callable(p.migrate.value.downgrade) && exit(n + 1) == 0))
  {
    var plan, after := RollbackPlan(p, vars), From(exit, n);
    assert after(0) == exit(n) && after(1) == exit(n + 1);
    CallableIs(p.rollback);
    if p.migrate.Some? { CallableIs(p.migrate.value.downgrade); }
    var k: nat :| Succeeded(plan, k, after) && (k < |plan| ==> !plan[k].allowed || after(k) != 0) && undone == Commands(plan[..Started(plan, k)]);
  }

  /** What a deployment comes to: the plan as far as it went, and the rollback after the whole plan and a
      failed health check. */
  ghost predicate Deployed(p: Profile, vars: Vars, env: Env, plan: seq<Action>, ran: seq<Command>, undone: seq<Command>, passed: bool) {
    && IsPlan(p, vars, plan) && FollowsPlan(plan, ran, env.exit)
    && (passed <==> Succeeded(plan, |plan|, env.exit) && Healthy(p, env.health))
    && (Succeeded(plan, |plan|, env.exit) ==> ran == Commands(plan))
    && if Succeeded(plan, |plan|, env.exit) then UndoneAfter(p, vars, env, |ran|, undone) else undone == []
  }

  /** What is undone after the whole plan: nothing when the health checks are well, else the rollback. */
  ghost predicate UndoneAfter(p: Profile, vars: Vars, env: Env, n: nat, undone: seq<Command>) {
    if Healthy(p, env.health) then undone == [] else exists ok :: RollsBack(p, vars, undone, n, env.exit, ok)
  }

  /** The first `n` commands are in the result's log, and no secret in its log or error. */
  ghost predicate Answered(r: Result, env: Env, n: nat, secrets: seq<string>) {
    (r.passed ==> r.error == "") && Tells(r.log, env, n, secrets) && Hides(r.log, secrets) && Hides(r.error, secrets)
  }

  /** What a deployment answers: what it comes to, in the plan's terms and in the profile's own words; every
      command that ran in its log, once and in order, and no secret in its log or error. */
  ghost predicate Delivered(p: Profile, vars: Vars, env: Env, plan: seq<Action>, ran: seq<Command>, undone: seq<Command>, r: Result, secrets: seq<string>) {
    && Deployed(p, vars, env, plan, ran, undone, r.passed)
    && SpelledOut(p, vars, ran) && UndoneInWords(p, undone)
    && Answered(r, env, |ran| + |undone|, secrets)
  }

  ghost predicate RolledBack(p: Profile, vars: Vars, env: Env, ran: seq<Command>, r: Result, secrets: seq<string>) {
    && RollsBack(p, vars, ran, 0, env.exit, r.passed) && UndoneInWords(p, ran)
    && Answered(r, env, |ran|, secrets)
  }

  /** A deployment that is not a rollback: `ran` is what ran for the plan, `undone` what the
      automatic rollback ran after it. */
  method Deploy(p: Profile, vars: Vars, env: Env, secrets: seq<string>)
    returns (r: Result, ran: seq<Command>, undone: seq<Command>, ghost plan: seq<Action>)
    ensures StepsOf(p) == [] ==> !r.passed && ran == undone == [] && r.log == ""
    ensures StepsOf(p) != [] ==> Delivered(p, vars, env, plan, ran, undone, r, secrets)
    ensures StepsOf(p) != [] && Succeeded(plan, |plan|, env.exit) ==>
              TellsHealth(r.health, p, env)
    ensures StepsOf(p) != [] && !Succeeded(plan, |plan|, env.exit) ==> r.health == ""
  {
    ran, undone, plan := [], [], [];
    if StepsOf(p) == [] { return Result(false, "", "", "deployment profile has no deploy steps"), [], [], []; }
    var err, log;
    err, ran, log, plan := RunPlan(p, vars, env);
    if err.Some? {
      r := DeployResult(log, env, "", err, secrets, |ran|);
      CutShort(p, vars, env, plan, ran, r, secrets);
    } else {
      r, undone := AfterSteps(p, vars, env, secrets, ran, log);
      WholeWay(p, vars, env, plan, ran, undone, r, secrets);
    }
  }

  /** The whole plan ran: the health checks, and the rollback when one fails. */
  method AfterSteps(p: Profile, vars: Vars, env: Env, secrets: seq<string>, ran: seq<Command>, log: seq<LogEntry>)
    returns (r: Result, undone: seq<Command>)
    requires Rans(log) == UpTo(|ran|)
    ensures r.passed <==> Healthy(p, env.health)
    ensures UndoneAfter(p, vars, env, |ran|, undone)
    ensures UndoneInWords(p, undone) && Answered(r, env, |ran| + |undone|, secrets) && TellsHealth(r.health, p, env)
  {
    undone := [];
    var err, answered, checked := CheckHealth(p, env, log);
    if err.Some? {
      var failed;
      failed, undone, checked := Undo(p, vars, env, ran, checked);
      if failed.Some? { err := Some(err.value + "; rollback failed: " + failed.value); }
    }
    var health := JoinStatuses(p, env, answered);
    r := DeployResult(checked, env, health, err, secrets, |ran| + |undone|);
  }

  /** The automatic rollback. */
  method Undo(p: Profile, vars: Vars, env: Env, ran: seq<Command>, log: seq<LogEntry>)
    returns (failed: Option<string>, undone: seq<Command>, log': seq<LogEntry>)
    requires Rans(log) == UpTo(|ran|) && !Healthy(p, env.health)
    ensures UndoneAfter(p, vars, env, |ran|, undone) && UndoneInWords(p, undone)
    ensures Rans(log') == UpTo(|ran| + |undone|)
  {
    var note := Note("health failed; starting rollback\n");
    RansNext(log, note);
    failed, undone, log' := ExecuteRollback(p, vars, env, ran, log + [note]);
    RollbackInWords(p, vars, undone, |ran|, env.exit, failed.None?);
  }

  lemma CutShort(p: Profile, vars: Vars, env: Env, plan: seq<Action>, ran: seq<Command>, r: Result, secrets: seq<string>)
    requires IsPlan(p, vars, plan) && FollowsPlan(plan, ran, env.exit) && !Succeeded(plan, |plan|, env.exit)
    requires SpelledOut(p, vars, ran) && !r.passed && Answered(r, env, |ran|, secrets)
    ensures Delivered(p, vars, env, plan, ran, [], r, secrets)
  {}

  lemma WholeWay(p: Profile, vars: Vars, env: Env, plan: seq<Action>, ran: seq<Command>, undone: seq<Command>, r: Result, secrets: seq<string>)
    requires IsPlan(p, vars, plan) && FollowsPlan(plan, ran, env.exit) && Succeeded(plan, |plan|, env.exit) && ran == Commands(plan)
    requires SpelledOut(p, vars, ran) && (r.passed <==> Healthy(p, env.health))
    requires UndoneAfter(p, vars, env, |ran|, undone) && UndoneInWords(p, undone)
    requires Answered(r, env, |ran| + |undone|, secrets)
    ensures Delivered(p, vars, env, plan, ran, undone, r, secrets)
  {}

  method Rollback(p: Profile, vars: Vars, env: Env, secrets: seq<string>) returns (r: Result, ran: seq<Command>)
    ensures RolledBack(p, vars, env, ran, r, secrets)
  {
    var err, log;
    err, ran, log := ExecuteRollback(p, vars, env, [], []);
    RollbackInWords(p, vars, ran, 0, env.exit, err.None?);
    r := DeployResult(log, env, "", err, secrets, |ran|);
  }

  // The order as a whole

  datatype Work = Work(profile: string, action: string, id: string, project: string, environment: string, revision: string,
                       previous: string, secrets: seq<(string, string)>)

  /** A name a program's environment takes, and a value without a zero byte. */
  predicate ValidSecret(secret: (string, string)) {
    && 1 <= |secret.0| <= 128 && 'A' <= secret.0[0] <= 'Z'
    && (forall i :: 0 <= i < |secret.0| ==> 'A' <= secret.0[i] <= 'Z' || '0' <= secret.0[i] <= '9' || secret.0[i] == '_')
    && '\0' !in secret.1
  }

  /** Which secrets an order may have: 1 to 128 capitals, digits and underscores, a capital first, and a
      value without a zero byte. */
  lemma ValidSecretIs(name: string, value: string)
    ensures ValidSecret((name, value)) <==>
            1 <= |name| <= 128 && 65 <= name[0] as int <= 90
            && (forall i :: 0 <= i < |name| ==> 65 <= name[i] as int <= 90 || 48 <= name[i] as int <= 57 || name[i] as int == 95)
            && forall i :: 0 <= i < |value| ==> value[i] as int != 0
  {
    if ValidSecret((name, value)) {
      forall i | 0 <= i < |value| ensures value[i] as int != 0 { assert value[i] in value; }
    }
  }

  predicate AllValid(secrets: seq<(string, string)>) {
    forall i :: 0 <= i < |secrets| ==> ValidSecret(secrets[i])
  }

  const ALLOWED := ["HOME", "LANG", "LC_ALL", "PATH", "TMPDIR"]

  /** What the worker's own environment has of the allowed names. */
  method SafeEnvironment(host: string -> Option<string>) returns (r: Vars)
    ensures r == SafeVars(host, |ALLOWED|)
  {
    r := [];
    for n := 0 to |ALLOWED|
      invariant r == SafeVars(host, n)
    {
      if host(ALLOWED[n]).Some? { r := r + [(ALLOWED[n], host(ALLOWED[n]).value)]; }
    }
  }

  function SafeVars(host: string -> Option<string>, n: nat): (r: Vars)
    requires n <= |ALLOWED|
    ensures forall i :: 0 <= i < |r| ==> r[i].0 in ALLOWED
  {
    if n == 0 then []
    else if host(ALLOWED[n - 1]).None? then SafeVars(host, n - 1)
    else SafeVars(host, n - 1) + [(ALLOWED[n - 1], host(ALLOWED[n - 1]).value)]
  }

  function Before(w: Work, host: string -> Option<string>): Vars {
    SafeVars(host, |ALLOWED|)
    + [("TRILHA_DEPLOYMENT_ID", w.id), ("TRILHA_PROJECT", w.project), ("TRILHA_ENVIRONMENT", w.environment)]
  }

  function After(w: Work): Vars {
    [("TRILHA_REVISION", w.revision), ("TRILHA_PREVIOUS_REVISION", w.previous)] + w.secrets
  }

  /** What every program of an order is handed: the executor's own variables, then every secret. */
  function EnvironmentOf(w: Work, host: string -> Option<string>): Vars {
    Before(w, host) + [(ACTION, w.action)] + After(w)
  }

  /** deploymentEnvironment: all of it, or none when a secret is not valid. */
  method DeploymentEnvironment(w: Work, host: string -> Option<string>) returns (r: Option<Vars>)
    ensures r == if AllValid(w.secrets) then Some(EnvironmentOf(w, host)) else None
  {
    var safe := SafeEnvironment(host);
    var first := [("TRILHA_DEPLOYMENT_ID", w.id), ("TRILHA_PROJECT", w.project), ("TRILHA_ENVIRONMENT", w.environment)];
    var last := [("TRILHA_REVISION", w.revision), ("TRILHA_PREVIOUS_REVISION", w.previous)];
    var environment := safe + (first + [(ACTION, w.action)] + last);
    ghost var own := environment;
    for n := 0 to |w.secrets|
      invariant AllValid(w.secrets[..n]) && environment == own + w.secrets[..n]
    {
      if !ValidSecret(w.secrets[n]) { return None; }
      assert w.secrets[..n + 1] == w.secrets[..n] + [w.secrets[n]];
      environment := environment + [w.secrets[n]];
    }
    assert w.secrets[..|w.secrets|] == w.secrets;
    InOrder(safe, first, (ACTION, w.action), last, w.secrets);
    r := Some(environment);
  }

  lemma InOrder(safe: Vars, a: Vars, b: (string, string), c: Vars, d: Vars)
    ensures safe + (a + [b] + c) + d == safe + a + [b] + (c + d)
  {}

  function Values(secrets: seq<(string, string)>): seq<string> {
    seq(|secrets|, i requires 0 <= i < |secrets| => secrets[i].1)
  }

  predicate Accepted(profiles: map<string, Profile>, w: Work) {
    w.profile in profiles && AllValid(w.secrets)
  }

  /** Execute: nothing runs for a profile that is not listed or a secret that is not valid; a rollback
      order runs the rollback alone; any other order deploys. Every program is handed the order's
      environment, a rollback's with the action replaced. */
  method Execute(profiles: map<string, Profile>, w: Work, host: string -> Option<string>, env: Env)
    returns (r: Result, ran: seq<Command>, undone: seq<Command>, ghost plan: seq<Action>)
    ensures !Accepted(profiles, w) ==> !r.passed && ran == undone == [] && r.log == r.health == ""
    ensures w.profile !in profiles ==> r.error == "deployment profile is not allow-listed"
    ensures w.profile in profiles && !AllValid(w.secrets) ==> r.error == "deployment contains an invalid secret"
    ensures Accepted(profiles, w) && w.action == "rollback" ==>
              RolledBack(profiles[w.profile], EnvironmentOf(w, host), env, ran, r, Values(w.secrets)) && undone == []
    ensures Accepted(profiles, w) && w.action != "rollback" && StepsOf(profiles[w.profile]) == [] ==> !r.passed && ran == undone == []
    ensures Accepted(profiles, w) && w.action != "rollback" && StepsOf(profiles[w.profile]) != [] ==>
              Delivered(profiles[w.profile], EnvironmentOf(w, host), env, plan, ran, undone, r, Values(w.secrets))
    ensures Hides(r.log, Values(w.secrets))
  {
    EmptyHides(Values(w.secrets));
    r, ran, undone, plan := Result(false, "", "", "deployment profile is not allow-listed"), [], [], [];
    if w.profile !in profiles { return; }
    var environment := DeploymentEnvironment(w, host);
    if environment.None? {
      r := r.(error := "deployment contains an invalid secret");
      return;
    }
    if w.action == "rollback" {
      r, ran := Rollback(profiles[w.profile], environment.value, env, Values(w.secrets));
    } else {
      r, ran, undone, plan := Deploy(profiles[w.profile], environment.value, env, Values(w.secrets));
    }
  }

  // What following the plan means

  /** The gate, and with it the plan, is unique. */
  lemma PlanIsUnique(p: Profile, vars: Vars, a: seq<Action>, b: seq<Action>)
    requires IsPlan(p, vars, a) && IsPlan(p, vars, b)
    ensures a == b
  {
    if p.migrate.Some? {
      var steps := StepsOf(p);
      var g: nat :| IsGate(steps, g) && a == PlanWith(steps, p.migrate, g, vars);
      var h: nat :| IsGate(steps, h) && b == PlanWith(steps, p.migrate, h, vars);
      assert g == h;
    }
  }

  /** Safety: whenever a step called switch has run, the configured migration ran before it and
      exited zero; and everything that ran before the last command exited zero. */
  lemma SwitchAfterMigration(p: Profile, vars: Vars, plan: seq<Action>, ran: seq<Command>, exit: nat -> int, i: nat)
    requires StepsOf(p) != [] && IsPlan(p, vars, plan) && FollowsPlan(plan, ran, exit) && i < |ran|
    ensures forall j :: 0 <= j < i ==> exit(j) == 0
    ensures p.migrate.Some? && ran[i].kind == DeployStep && SaysSwitch(ran[i].name) ==>
              exists j :: 0 <= j < i && ran[j].kind == Migrate && ran[j].argv == p.migrate.value.argv && exit(j) == 0
  {
    assert ran[i] == plan[i].command;
    SwitchIsTheWord(ran[i].name);
    if p.migrate.Some? && ran[i].kind == DeployStep && IsSwitch(ran[i].name) {
      var gate: nat :| IsGate(StepsOf(p), gate) && plan == PlanWith(StepsOf(p), p.migrate, gate, vars);
      SwitchIsAtOrAfterGate(p, vars, gate, i);
      assert ran[gate] == plan[gate].command;
    }
  }

  lemma SwitchIsAtOrAfterGate(p: Profile, vars: Vars, gate: nat, i: nat)
    requires p.migrate.Some? && IsGate(StepsOf(p), gate)
    ensures var plan := PlanWith(StepsOf(p), p.migrate, gate, vars);
            && plan[gate] == MigrateAction(p.migrate.value, vars)
            && (i < |plan| && plan[i].command.kind == DeployStep && IsSwitch(plan[i].command.name) ==> i > gate)
  {
    StepNumberIsNoSwitch(i + 1);
  }

  lemma StepNumberIsNoSwitch(n: nat)
    ensures !IsSwitch("step-" + Decimal(n))
  {
    var s := "step-" + Decimal(n);
    assert s[|s| - 1] == Decimal(n)[|Decimal(n)| - 1];
    assert s[0] == 's' && TrimSpace(s) == s;
    assert Lower(s)[1] == 't';
  }

  /** A downgrade undoes a migration: the automatic rollback runs one only for a reversible migration that
      ran in this deployment and exited zero, after every step exited zero, and after the image rollback
      exited zero. */
  lemma DowngradeUndoesMigration(p: Profile, vars: Vars, env: Env, plan: seq<Action>, ran: seq<Command>, undone: seq<Command>, passed: bool, i: nat)
    requires StepsOf(p) != [] && Deployed(p, vars, env, plan, ran, undone, passed)
    requires i < |undone| && undone[i].kind == RollbackMigration
    ensures p.migrate.Some? && p.migrate.value.reversible && undone[i].argv == p.migrate.value.downgrade
    ensures forall j :: 0 <= j < |ran| ==> env.exit(j) == 0
    ensures exists j :: 0 <= j < |ran| && ran[j].kind == Migrate && ran[j].argv == p.migrate.value.argv
    ensures i == 1 && undone[0].kind == RollbackImage && env.exit(|ran|) == 0
  {
    assert undone != [];
    assert !Healthy(p, env.health);
    var ok :| RollsBack(p, vars, undone, |ran|, env.exit, ok);
    DowngradeAfterImage(p, vars, undone, |ran|, env.exit, ok, i);
    MigrationIsPlanned(p, vars, plan);
  }

  lemma DowngradeAfterImage(p: Profile, vars: Vars, undone: seq<Command>, n: nat, exit: nat -> int, ok: bool, i: nat)
    requires RollsBack(p, vars, undone, n, exit, ok) && i < |undone| && undone[i].kind == RollbackMigration
    ensures Downgrades(p) && undone[i].argv == p.migrate.value.downgrade
    ensures i == 1 && undone[0].kind == RollbackImage && exit(n) == 0
  {
    var back, after := RollbackPlan(p, vars), From(exit, n);
    var k: nat :| Succeeded(back, k, after) && undone == Commands(back[..Started(back, k)]);
    assert undone[i] == back[i].command && undone[0] == back[0].command;
    assert after(0) == exit(n);
  }

  lemma MigrationIsPlanned(p: Profile, vars: Vars, plan: seq<Action>)
    requires p.migrate.Some? && IsPlan(p, vars, plan)
    ensures exists j :: 0 <= j < |Commands(plan)| && Commands(plan)[j] == MigrateAction(p.migrate.value, vars).command
  {
    var gate: nat :| IsGate(StepsOf(p), gate) && plan == PlanWith(StepsOf(p), p.migrate, gate, vars);
    assert plan[gate] == MigrateAction(p.migrate.value, vars);
    assert Commands(plan)[gate] == plan[gate].command;
  }

  // The environment of a rollback

  /** The value a program sees: the last entry of a name wins. */
  function Lookup(env: Vars, name: string): Option<string> {
    if env == [] then None
    else if env[|env| - 1].0 == name then Some(env[|env| - 1].1)
    else Lookup(env[..|env| - 1], name)
  }

  /** replaceEnvironment: the first entry of the name is rewritten, or one is appended. */
  method ReplaceEnvironment(env: Vars, name: string, value: string) returns (r: seq<(string, string)>)
    ensures r == Replaced(env, name, value)
  {
    r := env;
    for n := 0 to |env|
      invariant r == env && forall i :: 0 <= i < n ==> env[i].0 != name
    {
      if env[n].0 == name {
        r := r[n := (name, value)];
        FirstReplaced(env, name, value, n);
        return;
      }
    }
    NoneReplaced(env, name, value);
    r := r + [(name, value)];
  }

  function Replaced(env: Vars, name: string, value: string): seq<(string, string)> {
    if env == [] then [(name, value)]
    else if env[0].0 == name then [(name, value)] + env[1..]
    else [env[0]] + Replaced(env[1..], name, value)
  }

  lemma {:induction false} FirstReplaced(env: Vars, name: string, value: string, n: nat)
    requires n < |env| && env[n].0 == name && forall i :: 0 <= i < n ==> env[i].0 != name
    ensures Replaced(env, name, value) == env[n := (name, value)]
    decreases |env|
  {
    if n > 0 { FirstReplaced(env[1..], name, value, n - 1); }
  }

  lemma {:induction false} NoneReplaced(env: Vars, name: string, value: string)
    requires forall i :: 0 <= i < |env| ==> env[i].0 != name
    ensures Replaced(env, name, value) == env + [(name, value)]
    decreases |env|
  {
    if env != [] { NoneReplaced(env[1..], name, value); }
  }

  lemma {:induction false} LookupConcat(a: seq<(string, string)>, b: Vars, name: string)
    ensures Lookup(a + b, name) == if Lookup(b, name).Some? then Lookup(b, name) else Lookup(a, name)
    decreases |b|
  {
    if b == [] {
      assert a + b == a;
    } else {
      assert (a + b)[..|a + b| - 1] == a + b[..|b| - 1];
      LookupConcat(a, b[..|b| - 1], name);
    }
  }

  lemma ReplacedLookup(before: Vars, action: string, after: Vars, name: string, value: string)
    requires forall i :: 0 <= i < |before| ==> before[i].0 != name
    ensures Lookup(Replaced(before + [(name, action)] + after, name, value), name)
            == if Lookup(after, name).Some? then Lookup(after, name) else Some(value)
  {
    var env := before + [(name, action)] + after;
    FirstReplaced(env, name, value, |before|);
    assert env[|before| := (name, value)] == (before + [(name, value)]) + after;
    LookupConcat(before + [(name, value)], after, name);
    LookupConcat(before, [(name, value)], name);
  }

  /** A replacement leaves every other variable as it was. */
  lemma {:induction false} ReplacedOthers(vars: Vars, name: string, value: string, other: string)
    requires other != name
    ensures Lookup(Replaced(vars, name, value), other) == Lookup(vars, other)
    decreases |vars|
  {
    if vars == [] {
      assert [(name, value)][..0] == [];
    } else if vars[0].0 == name {
      assert vars == [vars[0]] + vars[1..];
      LookupConcat([vars[0]], vars[1..], other);
      LookupConcat([(name, value)], vars[1..], other);
      LookupOne(vars[0], other);
      LookupOne((name, value), other);
    } else {
      assert vars == [vars[0]] + vars[1..];
      LookupConcat([vars[0]], vars[1..], other);
      LookupConcat([vars[0]], Replaced(vars[1..], name, value), other);
      ReplacedOthers(vars[1..], name, value, other);
    }
  }

  lemma LookupOne(one: (string, string), name: string)
    ensures Lookup([one], name) == if one.0 == name then Some(one.1) else None
  {
    assert [one][..0] == [];
  }

  lemma LookupTwo(a: (string, string), b: (string, string), name: string)
    ensures Lookup([a, b], name) == if b.0 == name then Some(b.1) else if a.0 == name then Some(a.1) else None
  {
    assert [a, b][..1] == [a];
    LookupOne(a, name);
  }

  lemma LookupThree(a: (string, string), b: (string, string), c: (string, string), name: string)
    ensures Lookup([a, b, c], name) == if c.0 == name then Some(c.1) else Lookup([a, b], name)
  {
    assert [a, b, c][..2] == [a, b];
  }

  lemma LookupOwn(w: Work, name: string)
    ensures Lookup([("TRILHA_DEPLOYMENT_ID", w.id), ("TRILHA_PROJECT", w.project), ("TRILHA_ENVIRONMENT", w.environment)], name)
            == if name == "TRILHA_ENVIRONMENT" then Some(w.environment) else if name == "TRILHA_PROJECT" then Some(w.project)
               else if name == "TRILHA_DEPLOYMENT_ID" then Some(w.id) else None
  {
    LookupThree(("TRILHA_DEPLOYMENT_ID", w.id), ("TRILHA_PROJECT", w.project), ("TRILHA_ENVIRONMENT", w.environment), name);
    LookupTwo(("TRILHA_DEPLOYMENT_ID", w.id), ("TRILHA_PROJECT", w.project), name);
  }

  /** The variables by name: what a program is told unless a secret has that name. */
  function Told(w: Work, host: string -> Option<string>, name: string): Option<string> {
    match name
    case "TRILHA_DEPLOYMENT_ID" => Some(w.id)
    case "TRILHA_PROJECT" => Some(w.project)
    case "TRILHA_ENVIRONMENT" => Some(w.environment)
    case "TRILHA_DEPLOY_ACTION" => Some(w.action)
    case "TRILHA_REVISION" => Some(w.revision)
    case "TRILHA_PREVIOUS_REVISION" => Some(w.previous)
    case _ => if name in ["HOME", "LANG", "LC_ALL", "PATH", "TMPDIR"] then host(name) else None
  }

  /** For every name: a program of a deployment sees the secret of that name, else what the order says
      under it, else the worker's own value if the name is one of the five it may have. */
  lemma EnvironmentSays(w: Work, host: string -> Option<string>, name: string)
    ensures Lookup(EnvironmentOf(w, host), name)
            == if Lookup(w.secrets, name).Some? then Lookup(w.secrets, name) else Told(w, host, name)
  {
    LookupConcat(Before(w, host) + [(ACTION, w.action)], After(w), name);
    LookupConcat(Before(w, host), [(ACTION, w.action)], name);
    LookupOne((ACTION, w.action), name);
    LookupBefore(w, host, name);
    LookupAfter(w, name);
  }

  lemma LookupBefore(w: Work, host: string -> Option<string>, name: string)
    ensures Lookup(Before(w, host), name)
            == if name == "TRILHA_ENVIRONMENT" then Some(w.environment) else if name == "TRILHA_PROJECT" then Some(w.project)
               else if name == "TRILHA_DEPLOYMENT_ID" then Some(w.id) else if name in ALLOWED then host(name) else None
  {
    var own := [("TRILHA_DEPLOYMENT_ID", w.id), ("TRILHA_PROJECT", w.project), ("TRILHA_ENVIRONMENT", w.environment)];
    LookupConcat(SafeVars(host, |ALLOWED|), own, name);
    LookupOwn(w, name);
    LookupSafe(host, |ALLOWED|, name);
  }

  lemma LookupAfter(w: Work, name: string)
    ensures Lookup(After(w), name)
            == if Lookup(w.secrets, name).Some? then Lookup(w.secrets, name)
               else if name == "TRILHA_PREVIOUS_REVISION" then Some(w.previous) else if name == "TRILHA_REVISION" then Some(w.revision) else None
  {
    var last := [("TRILHA_REVISION", w.revision), ("TRILHA_PREVIOUS_REVISION", w.previous)];
    LookupConcat(last, w.secrets, name);
    LookupTwo(last[0], last[1], name);
  }

  lemma {:induction false} LookupSafe(host: string -> Option<string>, n: nat, name: string)
    requires n <= |ALLOWED|
    ensures Lookup(SafeVars(host, n), name) == if name in ALLOWED[..n] then host(name) else None
  {
    if n > 0 {
      LookupSafe(host, n - 1, name);
      assert ALLOWED[..n] == ALLOWED[..n - 1] + [ALLOWED[n - 1]];
      if host(ALLOWED[n - 1]).Some? {
        LookupConcat(SafeVars(host, n - 1), [(ALLOWED[n - 1], host(ALLOWED[n - 1]).value)], name);
        LookupOne((ALLOWED[n - 1], host(ALLOWED[n - 1]).value), name);
      }
    }
  }

  /** No variable of the executor's has the action's name. */
  lemma ActionIsOneVariable(w: Work, host: string -> Option<string>)
    ensures forall i :: 0 <= i < |Before(w, host)| ==> Before(w, host)[i].0 != ACTION
    ensures Lookup(After(w), ACTION) == Lookup(w.secrets, ACTION)
  {
    var own := [("TRILHA_REVISION", w.revision), ("TRILHA_PREVIOUS_REVISION", w.previous)];
    LookupConcat(own, w.secrets, ACTION);
    OwnNames(own);
  }

  lemma OwnNames(own: Vars)
    requires |own| == 2 && own[0].0 == "TRILHA_REVISION" && own[1].0 == "TRILHA_PREVIOUS_REVISION"
    ensures Lookup(own, ACTION) == None
  {
    assert own[..1] == [own[0]] && [own[0]][..0] == [];
    assert Lookup([own[0]], ACTION) == Lookup([own[0]][..0], ACTION);
  }

  /** For every order: a command of its rollback, ordered or automatic, sees the action `rollback` if and
      only if no secret of that name says otherwise; then it sees the secret. */
  lemma RollbackSeesItsAction(w: Work, host: string -> Option<string>, p: Profile, undone: seq<Command>, n: nat, exit: nat -> int, ok: bool, i: nat)
    requires RollsBack(p, EnvironmentOf(w, host), undone, n, exit, ok) && i < |undone|
    ensures Lookup(undone[i].vars, ACTION) == Some("rollback") <==> Lookup(w.secrets, ACTION) in {None, Some("rollback")}
    ensures Lookup(w.secrets, ACTION).Some? ==> Lookup(undone[i].vars, ACTION) == Lookup(w.secrets, ACTION)
  {
    var vars := EnvironmentOf(w, host);
    var plan := RollbackPlan(p, vars);
    var k: nat :| Succeeded(plan, k, From(exit, n)) && undone == Commands(plan[..Started(plan, k)]);
    assert undone[i] == plan[i].command && undone[i].vars == Replaced(vars, ACTION, "rollback");
    ActionIsOneVariable(w, host);
    ReplacedLookup(Before(w, host), w.action, After(w), ACTION, "rollback");
  }

  /** A secret that is valid can say otherwise: any order with such a secret, and any program. */
  lemma ASecretOverridesTheAction(w: Work, host: string -> Option<string>, p: Profile, exit: nat -> int, says: string) returns (undone: seq<Command>)
    requires w.secrets == [(ACTION, says)] && says != "rollback" && '\0' !in says && !NoProgram(p.rollback) && !Downgrades(p)
    ensures AllValid(w.secrets)
    ensures RollsBack(p, EnvironmentOf(w, host), undone, 0, exit, exit(0) == 0)
    ensures |undone| == 1 && Lookup(undone[0].vars, ACTION) == Some(says)
  {
    ActionIsValid(says);
    undone := [RollbackPlan(p, EnvironmentOf(w, host))[0].command];
    ImageRun(p, EnvironmentOf(w, host), undone, 0, exit, exit(0) == 0);
    assert Lookup(w.secrets, ACTION) == Some(says);
    RollbackSeesItsAction(w, host, p, undone, 0, exit, exit(0) == 0, 0);
  }

  lemma ActionIsValid(says: string)
    requires '\0' !in says
    ensures ValidSecret((ACTION, says))
  {}

  /** Such an order is there to be given. */
  lemma AnOrderThatDeploys() returns (w: Work, p: Profile)
    ensures w.secrets == [(ACTION, "deploy")] && w.action == "rollback" && !NoProgram(p.rollback) && !Downgrades(p)
  {
    w := Work("web", "rollback", "D-1", "shop", "production", "r2", "r1", [(ACTION, "deploy")]);
    p := Profile([], ["r"], [], None, [], "");
    assert TrimSpace("r") == "r";
  }
}
