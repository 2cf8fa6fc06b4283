/** The worker (cmd/trilha-runner/worker.go) step by step: the main loop, the goroutines that run the
    claims, the channel of outcomes, the outbox on disk and the cloud. Any step may be the last before
    the process dies, and a new process starts with what is on disk. File operations succeed. */
module Worker {
  import opened Wrappers
  import opened ResultOutbox

  /** Where a claim is: its goroutine runs it, has its outcome to send, has sent it; the main loop
      took it, or is done with it; or the process that had it is gone. */
  datatype Stage =
    | Executing
    | Finished(e: Entry, root: Option<nat>)
    | Buffered(e: Entry, root: Option<nat>)
    | Taken
    | Over
    | Lost

  datatype Claim = Claim(run: string, stage: Stage, wrote: nat, sent: nat)

  /** Where a delivery was called from. */
  datatype Caller = FromFlush(todo: seq<Path>) | FromLoop(c: nat)

  datatype Job = Job(e: Entry, path: Option<Path>, caller: Caller)

  /** Where the main goroutine is. */
  datatype Phase =
    | Down
    | Flushing(todo: seq<Path>)
    | Main
    | Opening(c: nat, e: Entry, path: Path)      // writeOutbox: the temporary file is not there yet
    | Filling(c: nat, e: Entry, path: Path)      // it is there, not all of it
    | Renaming(c: nat, e: Entry, path: Path)
    | Delivering(job: Job)
    | Clearing(job: Job)
    | Discarding(job: Job)

  datatype World = World(
    capacity: nat, phase: Phase, running: int, claims: seq<Claim>,
    pending: map<Path, File>, tmp: map<Path, File>, rejected: map<Path, File>,
    stored: map<(string, nat), nat>, written: set<(Path, Entry)>, refused: set<(Entry, int)>,
    posted: set<Entry>, taken: set<Entry>)

  datatype Action =
    | Start(todo: seq<Path>)                     // what pendingOutbox found
    | FlushNext
    | FlushDone
    | Claims(run: string)
    | Finish(c: nat, e: Entry, root: Option<nat>)
    | Send(c: nat)
    | Take(c: nat)
    | Open
    | Fill
    | Rename
    | Post(a: Answer, processed: bool)
    | Settle
    | Die                                        // a crash or a stop

  /** The worker's capacity is at least one, and one when it runs once. */
  function Capacity(asked: int, once: bool): (n: nat)
    ensures n >= 1 && (once || asked <= 0 ==> n == 1) && (asked > 0 && !once ==> n == asked)
  {
    if asked <= 0 || once then 1 else asked
  }

  function Boot(capacity: nat): World {
    World(capacity, Down, 0, [], map[], map[], map[], map[], {}, {}, {}, {})
  }

  ghost predicate Holds(stored: map<(string, nat), nat>, run: string) {
    exists attempt: nat :: (run, attempt) in stored
  }

  /** The cloud keeps one result per run and attempt, the first. */
  function Keep(stored: map<(string, nat), nat>, e: Entry): map<(string, nat), nat> {
    if (e.run, e.attempt) in stored then stored else stored[(e.run, e.attempt) := e.body]
  }

  /** What the cloud may answer: a success has stored the result, 409 means it holds one for the run,
      a refusal stores nothing, and any other answer may have been lost on the way back. */
  ghost predicate Honest(stored: map<(string, nat), nat>, e: Entry, a: Answer, processed: bool) {
    && (a.Status? && 200 <= a.code <= 299 ==> processed)
    && (a.Status? && a.code == 409 ==> !processed && Holds(stored, e.run))
    && (RefusesIt(a) ==> !processed)
  }

  /** A success, not a conflict. */
  predicate Accepts(a: Answer) { a.Status? && 200 <= a.code <= 299 }

  predicate InFlight(s: Stage) { s.Executing? || s.Finished? || s.Buffered? }

  function Of(sent: bool, s: Stage): nat {
    if s.Buffered? || (!sent && InFlight(s)) then 1 else 0
  }

  /** How many claims wait in the channel (`sent`), or are in flight altogether. */
  function Total(sent: bool, claims: seq<Claim>): nat {
    if claims == [] then 0 else Total(sent, claims[..|claims| - 1]) + Of(sent, claims[|claims| - 1].stage)
  }

  ghost predicate Enabled(s: World, a: Action) {
    match a
    case Start(todo) => s.phase.Down? && Distinct(todo) && forall p :: p in todo <==> p in s.pending
    case FlushNext => s.phase.Flushing? && s.phase.todo != []
    case FlushDone => s.phase.Flushing? && s.phase.todo == []
    case Claims(_) => s.phase.Main? && s.running < s.capacity
    case Finish(c, e, _) => c < |s.claims| && s.claims[c].stage.Executing? && e.run == s.claims[c].run
    case Send(c) => c < |s.claims| && s.claims[c].stage.Finished? && Total(true, s.claims) < s.capacity
    case Take(c) => s.phase.Main? && c < |s.claims| && s.claims[c].stage.Buffered?
    case Open => s.phase.Opening?
    case Fill => s.phase.Filling?
    case Rename => s.phase.Renaming? && s.phase.path in s.tmp && s.phase.c < |s.claims|
    case Post(a, processed) => s.phase.Delivering? && Honest(s.stored, s.phase.job.e, a, processed)
    case Settle => s.phase.Clearing? || s.phase.Discarding?
    case Die => !s.phase.Down?
  }

  function At(claims: seq<Claim>, c: nat, stage: Stage): seq<Claim>
    requires c < |claims|
  {
    claims[c := claims[c].(stage := stage)]
  }

  function Died(claims: seq<Claim>): seq<Claim> {
    seq(|claims|, i requires 0 <= i < |claims| => claims[i].(stage := if claims[i].stage.Over? then Over else Lost))
  }

  function Drop(files: map<Path, File>, path: Option<Path>): map<Path, File> {
    if path.None? then files else files - {path.value}
  }

  /** Back to where the delivery was called from. */
  function Return(s: World, caller: Caller): World {
    match caller
    case FromFlush(todo) => s.(phase := Flushing(todo))
    case FromLoop(c) => s.(phase := Main, claims := if c < |s.claims| then At(s.claims, c, Over) else s.claims)
  }

  /** The next pending file: gone, not to be delivered, or delivered. */
  function FlushedNext(s: World): World
    requires s.phase.Flushing? && s.phase.todo != []
  {
    var p, rest := s.phase.todo[0], s.phase.todo[1..];
    if p !in s.pending then s.(phase := Flushing(rest))
    else if !s.pending[p].Whole? || !SafeRun(s.pending[p].e.run) then
      s.(phase := Flushing(rest), pending := s.pending - {p}, rejected := s.rejected[p := s.pending[p]])
    else s.(phase := Delivering(Job(s.pending[p].e, Some(p), FromFlush(rest))))
  }

  /** An outcome leaves the channel; with nowhere to write it, it is delivered from memory. */
  function Took(s: World, c: nat): World
    requires c < |s.claims| && s.claims[c].stage.Buffered?
  {
    var e, path := s.claims[c].stage.e, PathOf(s.claims[c].stage.root, s.claims[c].stage.e.run);
    var sent := if path.None? then s.claims[c].sent + 1 else s.claims[c].sent;
    s.(running := s.running - 1, phase := if path.None? then Delivering(Job(e, None, FromLoop(c))) else Opening(c, e, path.value),
       claims := s.claims[c := s.claims[c].(stage := Taken, sent := sent)])
  }

  function Renamed(s: World): World
    requires s.phase.Renaming? && s.phase.path in s.tmp && s.phase.c < |s.claims|
  {
    var c, path := s.phase.c, s.phase.path;
    s.(phase := Delivering(Job(s.phase.e, Some(path), FromLoop(c))), pending := s.pending[path := s.tmp[path]], tmp := s.tmp - {path},
       claims := s.claims[c := s.claims[c].(wrote := s.claims[c].wrote + 1, sent := s.claims[c].sent + 1)],
       written := s.written + {(path, s.phase.e)})
  }

  function Posted(s: World, a: Answer, processed: bool): World
    requires s.phase.Delivering?
  {
    var job := s.phase.job;
    s.(stored := if processed then Keep(s.stored, job.e) else s.stored,
       refused := if Judge(a) == SetAside then s.refused + {(job.e, a.code)} else s.refused,
       posted := s.posted + {job.e}, taken := if Accepts(a) then s.taken + {job.e} else s.taken,
       phase := match Judge(a) case Cleared => Clearing(job) case SetAside => Discarding(job) case Again => s.phase)
  }

  function Settled(s: World): World
    requires s.phase.Clearing? || s.phase.Discarding?
  {
    var path := s.phase.job.path;
    var rejected := if s.phase.Discarding? && path.Some? && path.value in s.pending then s.rejected[path.value := s.pending[path.value]]
                    else s.rejected;
    Return(s.(pending := Drop(s.pending, path), rejected := rejected), s.phase.job.caller)
  }

  function Next(s: World, a: Action): World
    requires Enabled(s, a)
  {
    match a
    case Start(todo) => s.(phase := Flushing(todo), running := 0)
    case FlushNext => FlushedNext(s)
    case FlushDone => s.(phase := Main)
    case Claims(run) => s.(running := s.running + 1, claims := s.claims + [Claim(run, Executing, 0, 0)])
    case Finish(c, e, root) => s.(claims := At(s.claims, c, Finished(e, root)))
    case Send(c) => s.(claims := At(s.claims, c, Buffered(s.claims[c].stage.e, s.claims[c].stage.root)))
    case Take(c) => Took(s, c)
    case Open => s.(phase := Filling(s.phase.c, s.phase.e, s.phase.path), tmp := s.tmp[s.phase.path := Torn])
    case Fill => s.(phase := Renaming(s.phase.c, s.phase.e, s.phase.path), tmp := s.tmp[s.phase.path := Whole(s.phase.e)])
    case Rename => Renamed(s)
    case Post(answer, processed) => Posted(s, answer, processed)
    case Settle => Settled(s)
    case Die => s.(phase := Down, running := 0, claims := Died(s.claims))
  }

  ghost predicate Runs(s: World, actions: seq<Action>, s': World)
    decreases |actions|
  {
    if actions == [] then s' == s
    else Enabled(s, actions[0]) && Runs(Next(s, actions[0]), actions[1..], s')
  }

  // Capacity

  lemma {:induction false} TotalUpdate(sent: bool, claims: seq<Claim>, c: nat, x: Claim)
    requires c < |claims|
    ensures Total(sent, claims[c := x]) == Total(sent, claims) - Of(sent, claims[c].stage) + Of(sent, x.stage)
    decreases |claims|
  {
    var n := |claims| - 1;
    if c == n {
      assert claims[c := x][..n] == claims[..n];
    } else {
      assert claims[c := x][..n] == claims[..n][c := x];
      TotalUpdate(sent, claims[..n], c, x);
    }
  }

  lemma TotalNext(sent: bool, claims: seq<Claim>, x: Claim)
    ensures Total(sent, claims + [x]) == Total(sent, claims) + Of(sent, x.stage)
  {
    assert (claims + [x])[..|claims|] == claims;
  }

  lemma {:induction false} TotalDied(sent: bool, claims: seq<Claim>)
    ensures Total(sent, Died(claims)) == 0
    decreases |claims|
  {
    if claims != [] {
      assert Died(claims)[..|claims| - 1] == Died(claims[..|claims| - 1]);
      TotalDied(sent, claims[..|claims| - 1]);
    }
  }

  /** Sent outcomes are in flight, and so is one that is not sent yet. */
  lemma {:induction false} SentAreInFlight(claims: seq<Claim>)
    ensures Total(true, claims) <= Total(false, claims)
    ensures (exists c :: 0 <= c < |claims| && claims[c].stage.Finished?) ==> Total(true, claims) < Total(false, claims)
    decreases |claims|
  {
    if claims != [] {
      var front := claims[..|claims| - 1];
      SentAreInFlight(front);
      if c :| 0 <= c < |claims| && claims[c].stage.Finished? && c < |claims| - 1 { assert front[c].stage.Finished?; }
    }
  }

  /** running is the executing goroutines and the buffered outcomes, never more than the capacity. */
  ghost predicate Counted(s: World) {
    s.running == Total(false, s.claims) <= s.capacity && (s.phase.Down? ==> s.running == 0)
  }

  lemma CountedNext(s: World, a: Action)
    requires Counted(s) && Lives(s) && Enabled(s, a)
    ensures Counted(Next(s, a))
  {
    match a
    case Claims(run) => TotalNext(false, s.claims, Claim(run, Executing, 0, 0));
    case Finish(c, e, root) => TotalUpdate(false, s.claims, c, s.claims[c].(stage := Finished(e, root)));
    case Send(c) => TotalUpdate(false, s.claims, c, s.claims[c].(stage := Buffered(s.claims[c].stage.e, s.claims[c].stage.root)));
    case Take(c) => CountedTake(s, c);
    case Rename => CountedRename(s);
    case Die => TotalDied(false, s.claims);
    case Settle => CountedReturn(s);
    case FlushNext => CountedFlush(s);
    case Post(answer, processed) => CountedPost(s, answer, processed);
    case _ =>
  }

  lemma CountedTake(s: World, c: nat)
    requires Counted(s) && s.phase.Main? && c < |s.claims| && s.claims[c].stage.Buffered?
    ensures Counted(Took(s, c))
  {
    TotalUpdate(false, s.claims, c, Took(s, c).claims[c]);
  }

  lemma CountedRename(s: World)
    requires Counted(s) && s.phase.Renaming? && s.phase.path in s.tmp && s.phase.c < |s.claims|
    ensures Counted(Renamed(s))
  {
    TotalUpdate(false, s.claims, s.phase.c, Renamed(s).claims[s.phase.c]);
  }

  lemma CountedFlush(s: World)
    requires Counted(s) && s.phase.Flushing? && s.phase.todo != []
    ensures Counted(FlushedNext(s))
  {}

  lemma CountedPost(s: World, a: Answer, processed: bool)
    requires Counted(s) && s.phase.Delivering?
    ensures Counted(Posted(s, a, processed))
  {}

  lemma CountedReturn(s: World)
    requires Counted(s) && Lives(s) && (s.phase.Clearing? || s.phase.Discarding?)
    ensures Counted(Settled(s))
  {
    var caller := s.phase.job.caller;
    if caller.FromLoop? { TotalUpdate(false, s.claims, caller.c, s.claims[caller.c].(stage := Over)); }
  }

  // One write and one delivery a claim

  /** The claim whose outcome is being written. */
  function Writes(p: Phase): Option<nat> {
    if p.Opening? || p.Filling? || p.Renaming? then Some(p.c) else None
  }

  /** The claim whose outcome is being delivered. */
  function Delivers(p: Phase): Option<nat> {
    if (p.Delivering? || p.Clearing? || p.Discarding?) && p.job.caller.FromLoop? then Some(p.job.caller.c) else None
  }

  ghost predicate Life(x: Claim, writes: bool, delivers: bool) {
    && x.wrote <= x.sent <= 1
    && (InFlight(x.stage) || writes ==> x.sent == 0)
    && (writes || delivers <==> x.stage.Taken?)
    && (x.stage.Finished? || x.stage.Buffered? ==> x.stage.e.run == x.run)
  }

  ghost predicate Lives(s: World) {
    && (Writes(s.phase).Some? ==> Writes(s.phase).value < |s.claims|)
    && (Delivers(s.phase).Some? ==> Delivers(s.phase).value < |s.claims|)
    && forall c :: 0 <= c < |s.claims| ==> Life(s.claims[c], Writes(s.phase) == Some(c), Delivers(s.phase) == Some(c))
  }

  lemma LivesNext(s: World, a: Action)
    requires Lives(s) && Enabled(s, a)
    ensures Lives(Next(s, a))
  {
    match a
    case Take(c) => LivesTake(s, c);
    case Rename => LivesRename(s);
    case Settle => LivesSettle(s);
    case FlushNext => LivesFlush(s);
    case Post(answer, processed) => LivesPost(s, answer, processed);
    case _ => LivesElse(s, a);
  }

  lemma LivesTake(s: World, c: nat)
    requires Lives(s) && s.phase.Main? && c < |s.claims| && s.claims[c].stage.Buffered?
    ensures Lives(Took(s, c))
  {}

  lemma LivesRename(s: World)
    requires Lives(s) && s.phase.Renaming? && s.phase.path in s.tmp && s.phase.c < |s.claims|
    ensures Lives(Renamed(s))
  {}

  lemma LivesFlush(s: World)
    requires Lives(s) && s.phase.Flushing? && s.phase.todo != []
    ensures Lives(FlushedNext(s))
  {}

  lemma LivesPost(s: World, a: Answer, processed: bool)
    requires Lives(s) && s.phase.Delivering?
    ensures Lives(Posted(s, a, processed))
  {}

  lemma LivesSettle(s: World)
    requires Lives(s) && (s.phase.Clearing? || s.phase.Discarding?)
    ensures Lives(Settled(s))
  {}

  lemma LivesElse(s: World, a: Action)
    requires Lives(s) && Enabled(s, a) && !a.Take? && !a.Rename? && !a.Settle? && !a.FlushNext? && !a.Post?
    ensures Lives(Next(s, a))
  {
    match a
    case Start(todo) => LivesAt(s, s.(phase := Flushing(todo), running := 0));
    case FlushDone => LivesAt(s, s.(phase := Main));
    case Open => LivesWriting(s, Next(s, Open));
    case Fill => LivesWriting(s, Next(s, Fill));
    case Die => LivesDied(s, Next(s, Die));
    case _ => LivesAside(s, a);
  }

  lemma LivesAside(s: World, a: Action)
    requires Lives(s) && Enabled(s, a) && (a.Claims? || a.Finish? || a.Send?)
    ensures Lives(Next(s, a))
  {}

  /** The main loop goes where it has no claim in hand, and had none. */
  lemma LivesAt(s: World, s': World)
    requires Lives(s) && s'.claims == s.claims && Writes(s.phase).None? && Delivers(s.phase).None?
    requires Writes(s'.phase).None? && Delivers(s'.phase).None?
    ensures Lives(s')
  {}

  /** It goes on writing the same claim's outcome. */
  lemma LivesWriting(s: World, s': World)
    requires Lives(s) && s'.claims == s.claims && Writes(s'.phase) == Writes(s.phase) && Delivers(s'.phase) == Delivers(s.phase)
    ensures Lives(s')
  {}

  lemma LivesDied(s: World, s': World)
    requires Lives(s) && s'.phase.Down? && s'.claims == Died(s.claims)
    ensures Lives(s')
  {}

  // The disk

  /** The process up still has to deliver `p`. */
  predicate Owes(phase: Phase, p: Path) {
    match phase
    case Flushing(todo) => p in todo
    case Delivering(job) => JobOwes(job, p)
    case Clearing(job) => JobOwes(job, p)
    case Discarding(job) => JobOwes(job, p)
    case _ => false
  }

  predicate JobOwes(job: Job, p: Path) {
    job.path == Some(p) || (job.caller.FromFlush? && p in job.caller.todo)
  }

  ghost predicate JobOk(s: World, job: Job) {
    && (job.path.Some? ==> job.path.value in s.pending && s.pending[job.path.value] == Whole(job.e))
    && (job.caller.FromFlush? ==> Distinct(job.caller.todo) && job.path.Some? && job.path.value !in job.caller.todo)
  }

  ghost predicate Disk(s: World) {
    && (!s.phase.Down? ==> forall p :: p in s.pending <==> Owes(s.phase, p))
    && (forall p :: p in s.pending ==> Deliverable(p, s.pending[p]))
    && match s.phase
       case Flushing(todo) => Distinct(todo)
       case Opening(_, e, path) => Deliverable(path, Whole(e))
       case Filling(_, e, path) => Deliverable(path, Whole(e))
       case Renaming(_, e, path) => Deliverable(path, Whole(e)) && path in s.tmp && s.tmp[path] == Whole(e)
       case Delivering(job) => JobOk(s, job)
       case Clearing(job) => JobOk(s, job)
       case Discarding(job) => JobOk(s, job)
       case _ => true
  }

  lemma DiskNext(s: World, a: Action)
    requires Disk(s) && Enabled(s, a)
    ensures Disk(Next(s, a))
  {
    match a
    case Take(c) => DiskTake(s, c);
    case Rename => DiskRename(s);
    case Settle => DiskSettle(s);
    case FlushNext => DiskFlush(s);
    case Post(answer, processed) => DiskPost(s, answer, processed);
    case _ => DiskElse(s, a);
  }

  lemma DiskTake(s: World, c: nat)
    requires Disk(s) && s.phase.Main? && c < |s.claims| && s.claims[c].stage.Buffered?
    ensures Disk(Took(s, c))
  {}

  lemma DiskRename(s: World)
    requires Disk(s) && s.phase.Renaming? && s.phase.path in s.tmp && s.phase.c < |s.claims|
    ensures Disk(Renamed(s))
  {}

  lemma DiskFlush(s: World)
    requires Disk(s) && s.phase.Flushing? && s.phase.todo != []
    ensures Disk(FlushedNext(s))
  {
    var todo := s.phase.todo;
    forall p ensures p in todo <==> p == todo[0] || p in todo[1..] {}
    assert forall i :: 0 <= i < |todo[1..]| ==> todo[1..][i] == todo[i + 1];
  }

  lemma DiskPost(s: World, a: Answer, processed: bool)
    requires Disk(s) && s.phase.Delivering?
    ensures Disk(Posted(s, a, processed))
  {}

  lemma DiskSettle(s: World)
    requires Disk(s) && (s.phase.Clearing? || s.phase.Discarding?)
    ensures Disk(Settled(s))
  {}

  lemma DiskElse(s: World, a: Action)
    requires Disk(s) && Enabled(s, a) && !a.Take? && !a.Rename? && !a.Settle? && !a.FlushNext? && !a.Post?
    ensures Disk(Next(s, a))
  {}

  // The outbox

  /** Whatever reached result.json is pending there, or the cloud holds a result for its run, or has
      refused it for good. */
  ghost predicate Kept(s: World, p: Path, e: Entry) {
    (p in s.pending && s.pending[p] == Whole(e)) || Holds(s.stored, e.run) || Refused(s.refused, e)
  }

  /** The cloud answered it with a status that is not 2xx, below 500, and none of 408, 409 and 429. */
  ghost predicate Refused(refused: set<(Entry, int)>, e: Entry) {
    exists code: int :: (e, code) in refused && !(200 <= code <= 299) && code < 500 && code != 408 && code != 409 && code != 429
  }

  ghost predicate Safe(s: World) {
    && (forall p, e :: (p, e) in s.written ==> Kept(s, p, e))
    && (s.phase.Clearing? ==> Holds(s.stored, s.phase.job.e.run))
    && (s.phase.Discarding? ==> Refused(s.refused, s.phase.job.e))
  }

  lemma SafeNext(s: World, a: Action)
    requires Disk(s) && Safe(s) && Enabled(s, a)
    ensures Safe(Next(s, a))
  {
    match a
    case Rename => SafeRename(s);
    case Settle => SafeSettle(s);
    case FlushNext => SafeFlush(s);
    case Post(answer, processed) => SafePost(s, answer, processed);
    case _ =>
  }

  lemma SafeRename(s: World)
    requires Disk(s) && Safe(s) && s.phase.Renaming? && s.phase.path in s.tmp && s.phase.c < |s.claims|
    ensures Safe(Renamed(s))
  {
    assert !Owes(s.phase, s.phase.path);
  }

  lemma SafeFlush(s: World)
    requires Disk(s) && Safe(s) && s.phase.Flushing? && s.phase.todo != []
    ensures Safe(FlushedNext(s))
  {}

  lemma SafePost(s: World, a: Answer, processed: bool)
    requires Safe(s) && s.phase.Delivering? && Honest(s.stored, s.phase.job.e, a, processed)
    ensures Safe(Posted(s, a, processed))
  {
    JudgedByCode(a);
    var e := s.phase.job.e;
    forall run | Holds(s.stored, run) ensures Holds(Keep(s.stored, e), run) {
      var attempt: nat :| (run, attempt) in s.stored;
      assert (run, attempt) in Keep(s.stored, e);
    }
    assert (e.run, e.attempt) in Keep(s.stored, e);
  }

  lemma SafeSettle(s: World)
    requires Disk(s) && Safe(s) && (s.phase.Clearing? || s.phase.Discarding?)
    ensures Safe(Settled(s))
  {}

  // The cloud

  /** The cloud holds only what it was sent, under its run and attempt, and the key of everything it
      answered with a success. */
  ghost predicate Cloud(s: World) {
    && (forall k :: k in s.stored ==> Entry(k.0, k.1, s.stored[k]) in s.posted)
    && (forall e :: e in s.taken ==> (e.run, e.attempt) in s.stored)
  }

  lemma CloudNext(s: World, a: Action)
    requires Cloud(s) && Enabled(s, a)
    ensures Cloud(Next(s, a))
  {
    match a
    case Post(answer, processed) => CloudPost(s, answer, processed);
    case Settle => CloudSame(s, Settled(s));
    case FlushNext => CloudSame(s, FlushedNext(s));
    case Take(c) => CloudSame(s, Took(s, c));
    case Rename => CloudSame(s, Renamed(s));
    case _ =>
  }

  lemma CloudSame(s: World, s': World)
    requires Cloud(s) && s'.stored == s.stored && s'.posted == s.posted && s'.taken == s.taken
    ensures Cloud(s')
  {}

  lemma CloudPost(s: World, a: Answer, processed: bool)
    requires Cloud(s) && s.phase.Delivering? && Honest(s.stored, s.phase.job.e, a, processed)
    ensures Cloud(Posted(s, a, processed))
  {
    JudgedByCode(a);
    var e := s.phase.job.e;
    assert Entry(e.run, e.attempt, e.body) == e;
  }

  // Every run of the worker, with any crashes and restarts

  ghost predicate Inv(s: World) { Counted(s) && Lives(s) && Disk(s) && Safe(s) && Cloud(s) }

  lemma StepKeeps(s: World, a: Action)
    requires Inv(s) && Enabled(s, a)
    ensures Inv(Next(s, a))
  {
    CountedNext(s, a);
    LivesNext(s, a);
    DiskNext(s, a);
    SafeNext(s, a);
    CloudNext(s, a);
  }

  lemma {:induction false} RunsKeep(s: World, actions: seq<Action>, s': World)
    requires Inv(s) && Runs(s, actions, s')
    ensures Inv(s')
    decreases |actions|
  {
    if actions != [] {
      StepKeeps(s, actions[0]);
      RunsKeep(Next(s, actions[0]), actions[1..], s');
    }
  }

  ghost predicate Reachable(s: World) {
    exists capacity: nat, actions :: Runs(Boot(capacity), actions, s)
  }

  lemma ReachableKeeps(s: World)
    requires Reachable(s)
    ensures Inv(s)
  {
    var capacity: nat, actions :| Runs(Boot(capacity), actions, s);
    RunsKeep(Boot(capacity), actions, s);
  }

  /** Whenever the worker dies, whatever answers get lost: an entry that reached result.json is there,
      whole, or the cloud holds a result for its run, or the cloud refused it for good. */
  lemma NothingIsLost(s: World, p: Path, e: Entry)
    requires Reachable(s) && (p, e) in s.written
    ensures (p in s.pending && s.pending[p] == Whole(e)) || Holds(s.stored, e.run) || Refused(s.refused, e)
  {
    ReachableKeeps(s);
  }

  /** Leftovers go first: when the main loop can claim, nothing is pending, so everything ever written
      is with the cloud or refused by it, and no outcome is between the channel and the cloud. */
  lemma FlushedBeforeClaiming(s: World, run: string)
    requires Reachable(s) && Enabled(s, Claims(run))
    ensures s.pending == map[]
    ensures forall p, e :: (p, e) in s.written ==> Holds(s.stored, e.run) || Refused(s.refused, e)
    ensures forall c :: 0 <= c < |s.claims| ==> !s.claims[c].stage.Taken?
  {
    ReachableKeeps(s);
    assert forall p :: !Owes(s.phase, p);
    assert forall p, e :: (p, e) in s.written ==> Kept(s, p, e);
  }

  /** A result never takes the place of another one that is pending, and what takes its place is whole
      and names its own run. */
  lemma WritesNeverOverwrite(s: World)
    requires Reachable(s) && Enabled(s, Rename)
    ensures s.phase.path !in s.pending && Deliverable(s.phase.path, s.tmp[s.phase.path])
  {
    ReachableKeeps(s);
    assert !Owes(s.phase, s.phase.path);
  }

  /** No flush meets a file cut short: none is set aside unread. */
  lemma PendingIsWhole(s: World, p: Path)
    requires Reachable(s) && p in s.pending
    ensures Deliverable(p, s.pending[p])
  {
    ReachableKeeps(s);
  }

  /** running counts the goroutines and the buffered outcomes and stays within the capacity. */
  lemma RunningIsInFlight(s: World)
    requires Reachable(s)
    ensures s.running == Total(false, s.claims) <= s.capacity
  {
    ReachableKeeps(s);
  }

  /** A goroutine with an outcome never waits for the channel. */
  lemma SendNeverBlocks(s: World, c: nat)
    requires Reachable(s) && c < |s.claims| && s.claims[c].stage.Finished?
    ensures Enabled(s, Send(c))
  {
    ReachableKeeps(s);
    SentAreInFlight(s.claims);
  }

  /** Each claim is written at most once and delivered at most once, never written without being
      delivered, and neither before its goroutine is done. */
  lemma OneWriteOneDelivery(s: World, c: nat)
    requires Reachable(s) && c < |s.claims|
    ensures s.claims[c].wrote <= s.claims[c].sent <= 1
    ensures InFlight(s.claims[c].stage) ==> s.claims[c].sent == 0
  {
    ReachableKeeps(s);
    assert Life(s.claims[c], Writes(s.phase) == Some(c), Delivers(s.phase) == Some(c));
  }

  // Sending again

  ghost predicate Extends(a: map<(string, nat), nat>, b: map<(string, nat), nat>) {
    forall k :: k in a ==> k in b && b[k] == a[k]
  }

  /** However often a result is sent again, a stored result stays the one first stored. */
  lemma {:induction false} StoredNeverChanges(s: World, actions: seq<Action>, s': World)
    requires Runs(s, actions, s')
    ensures Extends(s.stored, s'.stored)
    decreases |actions|
  {
    if actions != [] {
      StoredNext(s, actions[0]);
      StoredNeverChanges(Next(s, actions[0]), actions[1..], s');
    }
  }

  lemma StoredNext(s: World, a: Action)
    requires Enabled(s, a)
    ensures Extends(s.stored, Next(s, a).stored)
  {}

  /** What the cloud holds was sent by the worker, under that run and attempt, and what it answered with a
      success it holds under its own. */
  lemma StoredWasPosted(s: World)
    requires Reachable(s)
    ensures forall run, attempt :: (run, attempt) in s.stored ==> Entry(run, attempt, s.stored[(run, attempt)]) in s.posted
    ensures forall e :: e in s.taken ==> (e.run, e.attempt) in s.stored
  {
    ReachableKeeps(s);
  }

  /** The process is down, or flushing, and the cloud holds every key it may send. */
  ghost predicate Resends(s: World) {
    && (forall p :: p in s.pending && s.pending[p].Whole? ==> (s.pending[p].e.run, s.pending[p].e.attempt) in s.stored)
    && match s.phase
       case Down => true
       case Flushing(_) => true
       case Delivering(job) => job.caller.FromFlush? && (job.e.run, job.e.attempt) in s.stored
       case Clearing(job) => job.caller.FromFlush?
       case Discarding(job) => job.caller.FromFlush?
       case _ => false
  }

  lemma ResendNext(s: World, a: Action)
    requires Resends(s) && Enabled(s, a) && a != FlushDone
    ensures Resends(Next(s, a)) && Next(s, a).stored == s.stored
  {
    match a
    case Post(answer, processed) => ResendPost(s, answer, processed);
    case Settle => ResendSettle(s);
    case FlushNext => ResendFlush(s);
    case _ =>
  }

  lemma ResendPost(s: World, a: Answer, processed: bool)
    requires Resends(s) && s.phase.Delivering?
    ensures Resends(Posted(s, a, processed)) && Posted(s, a, processed).stored == s.stored
  {}

  lemma ResendSettle(s: World)
    requires Resends(s) && (s.phase.Clearing? || s.phase.Discarding?)
    ensures Resends(Settled(s)) && Settled(s).stored == s.stored
  {}

  lemma ResendFlush(s: World)
    requires Resends(s) && s.phase.Flushing? && s.phase.todo != []
    ensures Resends(FlushedNext(s)) && FlushedNext(s).stored == s.stored
  {}

  /** A worker that died after the cloud took everything pending, its answers lost: however often the
      next ones start, send all of it again and die, what the cloud stores stays as it is. */
  lemma {:induction false} ResendingIsHarmless(s: World, actions: seq<Action>, s': World)
    requires Resends(s) && Runs(s, actions, s') && forall i :: 0 <= i < |actions| ==> actions[i] != FlushDone
    ensures s'.stored == s.stored
    decreases |actions|
  {
    if actions != [] {
      ResendNext(s, actions[0]);
      ResendingIsHarmless(Next(s, actions[0]), actions[1..], s');
    }
  }

  // Recovery

  lemma {:induction false} Listing(keys: set<Path>) returns (todo: seq<Path>)
    ensures Distinct(todo) && forall p :: p in todo <==> p in keys
    decreases |keys|
  {
    if keys == {} { return []; }
    var p :| p in keys;
    todo := Listing(keys - {p});
    todo := [p] + todo;
  }

  lemma {:induction false} RunsConcat(s: World, a: seq<Action>, s1: World, b: seq<Action>, s2: World)
    requires Runs(s, a, s1) && Runs(s1, b, s2)
    ensures Runs(s, a + b, s2)
    decreases |a|
  {
    if a == [] {
      assert a + b == b;
    } else {
      assert (a + b)[1..] == a[1..] + b;
      RunsConcat(Next(s, a[0]), a[1..], s1, b, s2);
    }
  }

  lemma One(s: World, a: Action)
    requires Enabled(s, a)
    ensures Runs(s, [a], Next(s, a))
  {}

  const ACCEPT: Action := Post(Status(200), true)

  /** One pending result, taken by a cloud that answers 200. */
  lemma FlushOne(s: World) returns (s': World)
    requires Inv(s) && s.phase.Flushing? && s.phase.todo != []
    ensures Runs(s, [FlushNext] + ([ACCEPT] + [Settle]), s') && Inv(s')
    ensures s'.phase == Flushing(s.phase.todo[1..]) && s'.written == s.written && s'.refused == s.refused
  {
    var s1 := FlushedNext(s);
    StepKeeps(s, FlushNext);
    FlushFinds(s);
    One(s, FlushNext);
    s' := Accepted(s1);
    RunsConcat(s, [FlushNext], s1, [ACCEPT] + [Settle], s');
  }

  lemma FlushFinds(s: World)
    requires Disk(s) && s.phase.Flushing? && s.phase.todo != []
    ensures var s1 := FlushedNext(s);
            s1.phase.Delivering? && s1.phase.job.caller == FromFlush(s.phase.todo[1..]) && s1.written == s.written && s1.refused == s.refused
  {
    assert Owes(s.phase, s.phase.todo[0]);
  }

  lemma Accepted(s: World) returns (s': World)
    requires Inv(s) && s.phase.Delivering? && s.phase.job.caller.FromFlush?
    ensures Runs(s, [ACCEPT] + [Settle], s') && Inv(s')
    ensures s'.phase == Flushing(s.phase.job.caller.todo) && s'.written == s.written && s'.refused == s.refused
  {
    var s1 := TakenAt(s);
    s' := Settled(s1);
    StepKeeps(s1, Settle);
    One(s1, Settle);
    RunsConcat(s, [ACCEPT], s1, [Settle], s');
  }

  lemma TakenAt(s: World) returns (s': World)
    requires Inv(s) && s.phase.Delivering?
    ensures Runs(s, [ACCEPT], s') && Inv(s') && s'.phase == Clearing(s.phase.job)
    ensures s'.written == s.written && s'.refused == s.refused && s'.stored == Keep(s.stored, s.phase.job.e)
  {
    s' := Posted(s, Status(200), true);
    MayAccept(s);
    StepKeeps(s, ACCEPT);
    One(s, ACCEPT);
  }

  lemma MayAccept(s: World)
    requires s.phase.Delivering?
    ensures Enabled(s, ACCEPT)
  {}

  /** From a flush with anything left to do, a cloud that answers 200 ends it. */
  lemma {:induction false} Flushes(s: World) returns (actions: seq<Action>, s': World)
    requires Inv(s) && s.phase.Flushing?
    ensures Runs(s, actions, s') && s'.phase.Main? && s'.written == s.written && s'.refused == s.refused
    decreases |s.phase.todo|
  {
    if s.phase.todo == [] {
      One(s, FlushDone);
      return [FlushDone], Next(s, FlushDone);
    }
    var s1 := FlushOne(s);
    actions, s' := Flushes(s1);
    RunsConcat(s, [FlushNext] + ([ACCEPT] + [Settle]), s1, actions, s');
    actions := [FlushNext] + ([ACCEPT] + [Settle]) + actions;
  }

  /** Wherever the worker dies, a restart can deliver everything that was written and not refused. */
  lemma DeadWorkersRecover(s: World) returns (actions: seq<Action>, s': World)
    requires Reachable(s) && s.phase.Down?
    ensures Runs(s, actions, s') && s'.pending == map[] && s'.refused == s.refused
    ensures forall p, e :: (p, e) in s.written ==> Holds(s'.stored, e.run) || Refused(s.refused, e)
  {
    ReachableKeeps(s);
    var todo := Listing(s.pending.Keys);
    var s1 := Next(s, Start(todo));
    StepKeeps(s, Start(todo));
    One(s, Start(todo));
    actions, s' := Flushes(s1);
    RunsConcat(s, [Start(todo)], s1, actions, s');
    actions := [Start(todo)] + actions;
    RunsKeep(s, actions, s');
    assert forall p :: !Owes(s'.phase, p);
    assert forall p, e :: (p, e) in s'.written ==> Kept(s', p, e);
  }

  // The machine does what the methods of the outbox promise

  function Posts(answers: seq<Answer>, processed: seq<bool>): seq<Action>
    requires |answers| == |processed|
  {
    seq(|answers|, i requires 0 <= i < |answers| => Post(answers[i], processed[i]))
  }

  lemma FirstStep(s: World, a: Action, rest: seq<Action>, s': World)
    requires Runs(s, [a] + rest, s')
    ensures Enabled(s, a) && Runs(Next(s, a), rest, s')
  {
    assert ([a] + rest)[1..] == rest;
  }

  /** What a delivery settled by `a` leaves, as Outbox.Deliver leaves it. */
  ghost predicate Leaves(s: World, job: Job, a: Answer, s': World) {
    && s'.pending == (if job.path.None? then s.pending else s.pending - {job.path.value})
    && s'.rejected == (if RefusesIt(a) && job.path.Some? && job.path.value in s.pending
                       then s.rejected[job.path.value := s.pending[job.path.value]] else s.rejected)
    && s'.phase == match job.caller case FromFlush(todo) => Flushing(todo) case FromLoop(_) => Main
  }

  lemma LastTry(s: World, a: Answer, processed: bool)
    requires s.phase.Delivering? && Judge(a) != Again
    ensures var s1 := Posted(s, a, processed);
            (s1.phase.Clearing? || s1.phase.Discarding?) && Leaves(s, s.phase.job, a, Settled(s1))
  {
    JudgedByCode(a);
  }

  /** A try that settles nothing leaves the outbox and the delivery as they were. */
  lemma TriedInVain(s: World, a: Answer, processed: bool)
    requires s.phase.Delivering? && Judge(a) == Again
    ensures var s1 := Posted(s, a, processed); s1.phase == s.phase && s1.pending == s.pending && s1.rejected == s.rejected
  {}

  lemma TryFirst(answers: seq<Answer>, processed: seq<bool>)
    requires |processed| == |answers| && answers != []
    ensures Posts(answers, processed) + [Settle] == [Post(answers[0], processed[0])] + (Posts(answers[1..], processed[1..]) + [Settle])
  {}

  lemma TryLast(s: World, a: Answer, processed: bool, s': World)
    requires s.phase.Delivering? && Judge(a) != Again && Runs(s, [Post(a, processed)] + [Settle], s')
    ensures Leaves(s, s.phase.job, a, s')
  {
    FirstStep(s, Post(a, processed), [Settle], s');
    assert [Settle] == [Settle] + [];
    FirstStep(Posted(s, a, processed), Settle, [], s');
    LastTry(s, a, processed);
  }

  /** Any number of tries the last of which settles the matter: the outbox is left as Outbox.Deliver
      leaves it, and the caller goes on. */
  lemma {:induction false} DeliverIsARun(s: World, answers: seq<Answer>, processed: seq<bool>, s': World)
    requires s.phase.Delivering? && |processed| == |answers| && Settling(answers) == |answers| - 1
    requires Runs(s, Posts(answers, processed) + [Settle], s')
    ensures Leaves(s, s.phase.job, answers[|answers| - 1], s')
    decreases |answers|
  {
    TryFirst(answers, processed);
    if |answers| == 1 {
      assert Posts(answers[1..], processed[1..]) + [Settle] == [Settle];
      TryLast(s, answers[0], processed[0], s');
    } else {
      FirstStep(s, Post(answers[0], processed[0]), Posts(answers[1..], processed[1..]) + [Settle], s');
      TriedInVain(s, answers[0], processed[0]);
      DeliverIsARun(Posted(s, answers[0], processed[0]), answers[1..], processed[1..], s');
    }
  }

  /** The steps of a write leave what Outbox.Write leaves, under whatever path the outcome has. */
  lemma WriteIsARun(s: World, c: nat, s': World)
    requires Enabled(s, Take(c)) && PathOf(s.claims[c].stage.root, s.claims[c].stage.e.run).Some?
    requires Runs(s, [Take(c)] + ([Open] + ([Fill] + ([Rename] + []))), s')
    ensures var e, path := s.claims[c].stage.e, PathOf(s.claims[c].stage.root, s.claims[c].stage.e.run);
            s'.pending == s.pending[path.value := Whole(e)] && path.value !in s'.tmp && s'.phase == Delivering(Job(e, path, FromLoop(c)))
  {
    var s1 := Took(s, c);
    FirstStep(s, Take(c), [Open] + ([Fill] + ([Rename] + [])), s');
    FirstStep(s1, Open, [Fill] + ([Rename] + []), s');
    var s2 := Next(s1, Open);
    FirstStep(s2, Fill, [Rename] + [], s');
    FirstStep(Next(s2, Fill), Rename, [], s');
  }

  // The worker gets on with its work

  /** The claims that are executing, have an outcome to send, or have sent it, one by one. */
  ghost predicate IsInFlight(claims: seq<Claim>, c: nat) {
    c < |claims| && (claims[c].stage.Executing? || claims[c].stage.Finished? || claims[c].stage.Buffered?)
  }

  ghost function InFlightUpTo(claims: seq<Claim>): set<nat> {
    set c: nat | c < |claims| && IsInFlight(claims, c)
  }

  /** What running counts. */
  lemma {:induction false} TotalCounts(claims: seq<Claim>)
    ensures Total(false, claims) == |InFlightUpTo(claims)|
    decreases |claims|
  {
    if claims == [] {
      assert InFlightUpTo(claims) == {};
    } else {
      var n := |claims| - 1;
      var front := claims[..n];
      TotalCounts(front);
      assert forall c: nat :: c < n ==> (IsInFlight(claims, c) <==> IsInFlight(front, c));
      assert InFlightUpTo(claims) == InFlightUpTo(front) + if IsInFlight(claims, n) then {n} else {};
    }
  }

  lemma Then(s: World, actions: seq<Action>, s1: World, a: Action) returns (more: seq<Action>, s2: World)
    requires Inv(s1) && Runs(s, actions, s1) && Enabled(s1, a)
    ensures Runs(s, more, s2) && s2 == Next(s1, a) && Inv(s2)
  {
    StepKeeps(s1, a);
    One(s1, a);
    RunsConcat(s, actions, s1, [a], Next(s1, a));
    more, s2 := actions + [a], Next(s1, a);
  }

  /** Claimed and run. */
  lemma Executes(s: World, e: Entry, root: nat) returns (actions: seq<Action>, s': World)
    requires Inv(s) && s.phase.Main? && s.running < s.capacity
    ensures Runs(s, actions, s') && Inv(s') && s'.phase.Main? && s'.stored == s.stored
    ensures |s'.claims| == |s.claims| + 1 && s'.claims[|s.claims|].stage == Finished(e, Some(root))
  {
    actions, s' := Then(s, [], s, Claims(e.run));
    assert s'.claims[|s.claims|] == Claim(e.run, Executing, 0, 0) && s'.phase.Main?;
    actions, s' := Then(s, actions, s', Finish(|s.claims|, e, Some(root)));
  }

  /** Sent, and taken from the channel. */
  lemma Hands(s: World, c: nat, e: Entry, root: nat) returns (actions: seq<Action>, s': World)
    requires Inv(s) && s.phase.Main? && c < |s.claims| && s.claims[c].stage == Finished(e, Some(root)) && SafeRun(e.run)
    ensures Runs(s, actions, s') && Inv(s') && s'.phase == Opening(c, e, Path(root, e.run)) && s'.stored == s.stored
  {
    SentAreInFlight(s.claims);
    actions, s' := Then(s, [], s, Send(c));
    assert s'.claims[c].stage == Buffered(e, Some(root)) && s'.phase.Main?;
    actions, s' := Then(s, actions, s', Take(c));
  }

  /** Written down. */
  lemma WritesDown(s: World) returns (actions: seq<Action>, s': World)
    requires Inv(s) && s.phase.Opening?
    ensures Runs(s, actions, s') && Inv(s') && s'.phase == Delivering(Job(s.phase.e, Some(s.phase.path), FromLoop(s.phase.c)))
    ensures s'.stored == s.stored && (s.phase.path, s.phase.e) in s'.written
  {
    var c, e, path := s.phase.c, s.phase.e, s.phase.path;
    actions, s' := Then(s, [], s, Open);
    assert s'.phase == Filling(c, e, path);
    actions, s' := Then(s, actions, s', Fill);
    assert s'.phase == Renaming(c, e, path) && path in s'.tmp;
    actions, s' := Then(s, actions, s', Rename);
  }

  /** Written down, posted and cleared. */
  lemma DeliversIt(s: World) returns (actions: seq<Action>, s': World)
    requires Inv(s) && s.phase.Opening?
    ensures Runs(s, actions, s') && s'.phase.Main? && s'.pending == map[] && s'.stored == Keep(s.stored, s.phase.e)
    ensures (s.phase.path, s.phase.e) in s'.written
  {
    var s1;
    actions, s1 := WritesDown(s);
    var s2 := TakenAt(s1);
    RunsConcat(s, actions, s1, [ACCEPT], s2);
    s' := Settled(s2);
    StepKeeps(s2, Settle);
    One(s2, Settle);
    RunsConcat(s, actions + [ACCEPT], s2, [Settle], s');
    actions := actions + [ACCEPT] + [Settle];
    assert forall p :: !Owes(s'.phase, p);
  }

  /** Progress: whenever the main loop has room, any claim can be run, written down, delivered and cleared,
      and then the cloud holds its result. */
  lemma AClaimCanBeServed(s: World, e: Entry, root: nat) returns (actions: seq<Action>, s': World)
    requires Reachable(s) && s.phase.Main? && s.running < s.capacity && SafeRun(e.run)
    ensures Runs(s, actions, s') && s'.phase.Main? && (e.run, e.attempt) in s'.stored
    ensures (e.run, e.attempt) !in s.stored ==> s'.stored[(e.run, e.attempt)] == e.body
    ensures (Path(root, e.run), e) in s'.written && s'.pending == map[]
  {
    ReachableKeeps(s);
    var more;
    var s1, s2;
    actions, s1 := Executes(s, e, root);
    more, s2 := Hands(s1, |s.claims|, e, root);
    RunsConcat(s, actions, s1, more, s2);
    actions := actions + more;
    more, s' := DeliversIt(s2);
    RunsConcat(s, actions, s2, more, s');
    actions := actions + more;
  }
}
