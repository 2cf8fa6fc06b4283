/** The local queue: the dependency graph of the task store (queue/queue.go) and the check that
    admits a run (runner/runner.go). */
module Queue {
  import opened Tasks
  import opened Wrappers

  /** `TASK-NNN`, or `alias:TASK-NNN` of a sibling repository. */
  datatype Dependency = Local(id: string) | Remote(alias: string, id: string)

  datatype Task = Task(id: string, status: Status, dependsOn: seq<Dependency>)

  type Store = map<string, Task>

  /** Whether a sibling's task is done: false for an alias without a checkout, a store that does not
      open and a task that is not there. */
  type Siblings = (string, string) -> bool

  predicate Satisfied(d: Dependency, store: Store, siblings: Siblings) {
    match d
    case Local(id) => id in store && store[id].status == Done
    case Remote(alias, id) => siblings(alias, id)
  }

  predicate Unblocked(t: Task, store: Store, siblings: Siblings) {
    forall d :: d in t.dependsOn ==> Satisfied(d, store, siblings)
  }

  /** The first dependency that holds a task back, in the order the task lists them. */
  ghost predicate IsBlocker(t: Task, store: Store, siblings: Siblings, d: Dependency) {
    exists i :: 0 <= i < |t.dependsOn| && t.dependsOn[i] == d && !Satisfied(d, store, siblings)
      && forall j :: 0 <= j < i ==> Satisfied(t.dependsOn[j], store, siblings)
  }

  method Blocker(t: Task, store: Store, siblings: Siblings) returns (r: Option<Dependency>)
    ensures r.None? <==> Unblocked(t, store, siblings)
    ensures r.Some? ==> IsBlocker(t, store, siblings, r.value)
  {
    for i := 0 to |t.dependsOn|
      invariant forall j :: 0 <= j < i ==> Satisfied(t.dependsOn[j], store, siblings)
    {
      var d := t.dependsOn[i];
      match d
      case Local(id) =>
        if id !in store || store[id].status != Done {
          assert d in t.dependsOn && !Satisfied(d, store, siblings);
          return Some(d);
        }
      case Remote(alias, id) =>
        if !siblings(alias, id) {
          assert d in t.dependsOn && !Satisfied(d, store, siblings);
          return Some(d);
        }
    }
    r := None;
  }

  // Next

  datatype Answer = Item(id: string) | Waiting(id: string, on: Dependency) | Nothing

  predicate Less(a: string, b: string) {
    b != "" && (a == "" || a[0] < b[0] || (a[0] == b[0] && Less(a[1..], b[1..])))
  }

  /** What listing a store answers: its tasks by id, each once. */
  ghost predicate Listing(tasks: seq<Task>, store: Store) {
    && (forall i, j :: 0 <= i < j < |tasks| ==> Less(tasks[i].id, tasks[j].id))
    && (forall i :: 0 <= i < |tasks| ==> tasks[i].id in store && store[tasks[i].id] == tasks[i])
    && (forall id :: id in store ==> store[id] in tasks && store[id].id == id)
  }

  lemma {:induction false} LessIsStrict(a: string, b: string)
    ensures Less(a, b) ==> a != b && !Less(b, a)
    decreases |a|
  {
    if a != "" && b != "" { LessIsStrict(a[1..], b[1..]); }
  }

  predicate CanStart(store: Store, siblings: Siblings, id: string) {
    id in store && store[id].status == Ready && Unblocked(store[id], store, siblings)
  }

  ghost predicate WaitsOn(store: Store, siblings: Siblings, id: string, d: Dependency) {
    id in store && store[id].status == Ready && d.Remote? && IsBlocker(store[id], store, siblings, d)
  }

  /** A local dependency is there and done; a sibling's is done there. */
  ghost predicate DoneOrDoneThere(d: Dependency, store: Store, siblings: Siblings) {
    if d.Local? then d.id in store && store[d.id].status == Done else siblings(d.alias, d.id)
  }

  /** What can start: a ready task all of whose dependencies are done. */
  lemma StartIs(store: Store, siblings: Siblings, id: string)
    ensures CanStart(store, siblings, id) <==>
            id in store && store[id].status == Ready
            && forall k :: 0 <= k < |store[id].dependsOn| ==> DoneOrDoneThere(store[id].dependsOn[k], store, siblings)
  {
    if id in store {
      var ds := store[id].dependsOn;
      forall k | 0 <= k < |ds| ensures DoneOrDoneThere(ds[k], store, siblings) <==> Satisfied(ds[k], store, siblings) {}
      if CanStart(store, siblings, id) { assert forall k :: 0 <= k < |ds| ==> ds[k] in ds; }
    }
  }

  /** What waits: a ready task whose first dependency that is not done is a sibling's. */
  lemma WaitsIs(store: Store, siblings: Siblings, id: string, d: Dependency)
    ensures WaitsOn(store, siblings, id, d) <==>
            id in store && store[id].status == Ready && d.Remote? && !siblings(d.alias, d.id)
            && exists k :: 0 <= k < |store[id].dependsOn| && store[id].dependsOn[k] == d
                           && forall j :: 0 <= j < k ==> DoneOrDoneThere(store[id].dependsOn[j], store, siblings)
  {}

  /** Tasks are listed in the order of their ids, byte by byte. */
  lemma {:induction false} LessIs(a: string, b: string)
    ensures Less(a, b) <==> exists i: nat :: DiffersFirst(a, b, i)
    decreases |a|
  {
    if b != "" && (a == "" || a[0] != b[0]) {
      assert Less(a, b) ==> DiffersFirst(a, b, 0);
      assert forall i: nat :: DiffersFirst(a, b, i) && i > 0 ==> a[0] == b[0];
    } else if a != "" && b != "" {
      LessIs(a[1..], b[1..]);
      if i: nat :| DiffersFirst(a[1..], b[1..], i) { assert DiffersFirst(a, b, i + 1); }
      if i: nat :| DiffersFirst(a, b, i) { assert i > 0 && DiffersFirst(a[1..], b[1..], i - 1); }
    }
  }

  /** They agree before `i`, and there `a` ends or has the smaller character. */
  ghost predicate DiffersFirst(a: string, b: string, i: nat) {
    i <= |a| && i < |b| && (forall k :: 0 <= k < i ==> a[k] == b[k]) && (i == |a| || a[i] < b[i])
  }

  ghost predicate NoneBefore(store: Store, siblings: Siblings, tasks: seq<Task>, n: nat)
    requires n <= |tasks|
  {
    forall i :: 0 <= i < n ==> !CanStart(store, siblings, tasks[i].id)
  }

  ghost predicate FirstWaiting(tasks: seq<Task>, store: Store, siblings: Siblings, k: nat, first: (string, Dependency)) {
    && k < |tasks| && tasks[k].id == first.0
    && WaitsOn(store, siblings, first.0, first.1)
    && forall i, d :: 0 <= i < k ==> !WaitsOn(store, siblings, tasks[i].id, d)
  }

  method BuildStore(tasks: seq<Task>) returns (store: Store)
    requires forall i, j :: 0 <= i < j < |tasks| ==> tasks[i].id != tasks[j].id
    ensures forall i :: 0 <= i < |tasks| ==> tasks[i].id in store && store[tasks[i].id] == tasks[i]
    ensures forall id :: id in store ==> store[id] in tasks && store[id].id == id
  {
    store := map[];
    for n := 0 to |tasks|
      invariant forall i :: 0 <= i < n ==> tasks[i].id in store && store[tasks[i].id] == tasks[i]
      invariant forall id :: id in store ==> store[id] in tasks && store[id].id == id
    {
      store := store[tasks[n].id := tasks[n]];
    }
  }

  /** The least ready task with every dependency done; else the least ready task that waits for a
      sibling repository; else nothing. */
  method Next(tasks: seq<Task>, siblings: Siblings, ghost listed: Store) returns (r: Answer)
    requires Listing(tasks, listed)
    ensures r.Item? ==> CanStart(listed, siblings, r.id)
                        && forall id :: CanStart(listed, siblings, id) ==> id == r.id || Less(r.id, id)
    ensures r.Waiting? ==> (forall id :: !CanStart(listed, siblings, id)) && WaitsOn(listed, siblings, r.id, r.on)
                           && forall id, d :: WaitsOn(listed, siblings, id, d) ==> id == r.id || Less(r.id, id)
    ensures r.Nothing? ==> (forall id :: !CanStart(listed, siblings, id)) && forall id, d :: !WaitsOn(listed, siblings, id, d)
  {
    ListedOnce(tasks, listed);
    var store := BuildStore(tasks);
    SameStore(tasks, store, listed);
    var firstBlocked: Option<(string, Dependency)> := None;
    for n := 0 to |tasks|
      invariant NoneBefore(store, siblings, tasks, n)
      invariant firstBlocked.None? ==> forall i, d :: 0 <= i < n ==> !WaitsOn(store, siblings, tasks[i].id, d)
      invariant firstBlocked.Some? ==> exists k: nat :: k < n && FirstWaiting(tasks, store, siblings, k, firstBlocked.value)
    {
      if tasks[n].status == Ready {
        var blocked := Blocker(tasks[n], store, siblings);
        if blocked.None? {
          LeastStart(tasks, store, siblings, n);
          return Item(tasks[n].id);
        }
        if blocked.value.Remote? && firstBlocked.None? {
          firstBlocked := Some((tasks[n].id, blocked.value));
          assert FirstWaiting(tasks, store, siblings, n, firstBlocked.value);
        } else if blocked.value.Local? {
          LocalBlocks(store, siblings, tasks[n], blocked.value);
        }
      }
    }
    NoStart(tasks, store, siblings);
    if firstBlocked.Some? {
      LeastWaiting(tasks, store, siblings, firstBlocked.value);
      return Waiting(firstBlocked.value.0, firstBlocked.value.1);
    }
    forall id, d ensures !WaitsOn(listed, siblings, id, d) { NotListed(tasks, store, siblings, id, d); }
    r := Nothing;
  }

  lemma ListedOnce(tasks: seq<Task>, store: Store)
    requires Listing(tasks, store)
    ensures forall i, j :: 0 <= i < j < |tasks| ==> tasks[i].id != tasks[j].id
  {
    forall i, j | 0 <= i < j < |tasks| ensures tasks[i].id != tasks[j].id { LessIsStrict(tasks[i].id, tasks[j].id); }
  }

  lemma SameStore(tasks: seq<Task>, store: Store, listed: Store)
    requires Listing(tasks, listed)
    requires forall i :: 0 <= i < |tasks| ==> tasks[i].id in store && store[tasks[i].id] == tasks[i]
    requires forall id :: id in store ==> store[id] in tasks && store[id].id == id
    ensures store == listed
  {}

  lemma LeastStart(tasks: seq<Task>, store: Store, siblings: Siblings, n: nat)
    requires Listing(tasks, store) && n < |tasks| && NoneBefore(store, siblings, tasks, n)
    ensures forall id :: CanStart(store, siblings, id) ==> id == tasks[n].id || Less(tasks[n].id, id)
  {
    forall id | CanStart(store, siblings, id) ensures id == tasks[n].id || Less(tasks[n].id, id) {
      var i :| 0 <= i < |tasks| && tasks[i] == store[id];
      assert i >= n;
    }
  }

  lemma NoStart(tasks: seq<Task>, store: Store, siblings: Siblings)
    requires Listing(tasks, store) && NoneBefore(store, siblings, tasks, |tasks|)
    ensures forall id :: !CanStart(store, siblings, id)
  {
    forall id ensures !CanStart(store, siblings, id) {
      if id in store { var i :| 0 <= i < |tasks| && tasks[i] == store[id]; }
    }
  }

  lemma LocalBlocks(store: Store, siblings: Siblings, t: Task, local: Dependency)
    requires local.Local? && IsBlocker(t, store, siblings, local)
    ensures forall d :: IsBlocker(t, store, siblings, d) ==> d == local
  {
    forall d | IsBlocker(t, store, siblings, d) ensures d == local { OneBlocker(t, store, siblings, d, local); }
  }

  lemma OneBlocker(t: Task, store: Store, siblings: Siblings, a: Dependency, b: Dependency)
    requires IsBlocker(t, store, siblings, a) && IsBlocker(t, store, siblings, b)
    ensures a == b
  {
    var i :| 0 <= i < |t.dependsOn| && t.dependsOn[i] == a && !Satisfied(a, store, siblings)
             && forall j :: 0 <= j < i ==> Satisfied(t.dependsOn[j], store, siblings);
    var k :| 0 <= k < |t.dependsOn| && t.dependsOn[k] == b && !Satisfied(b, store, siblings)
             && forall j :: 0 <= j < k ==> Satisfied(t.dependsOn[j], store, siblings);
    assert i == k;
  }

  lemma LeastWaiting(tasks: seq<Task>, store: Store, siblings: Siblings, first: (string, Dependency))
    requires Listing(tasks, store) && exists k: nat :: FirstWaiting(tasks, store, siblings, k, first)
    ensures forall id, d :: WaitsOn(store, siblings, id, d) ==> id == first.0 || Less(first.0, id)
  {
    var k: nat :| FirstWaiting(tasks, store, siblings, k, first);
    forall id, d | WaitsOn(store, siblings, id, d) ensures id == first.0 || Less(first.0, id) {
      var i :| 0 <= i < |tasks| && tasks[i] == store[id];
      assert i >= k;
    }
  }

  lemma NotListed(tasks: seq<Task>, store: Store, siblings: Siblings, id: string, d: Dependency)
    requires Listing(tasks, store)
    requires forall i, e :: 0 <= i < |tasks| ==> !WaitsOn(store, siblings, tasks[i].id, e)
    ensures !WaitsOn(store, siblings, id, d)
  {
    if id in store { var i :| 0 <= i < |tasks| && tasks[i] == store[id]; }
  }

  // Runs over time

  datatype State = State(store: Store, siblings: Siblings, ran: set<string>)

  /** A run's first move: Blocker first, then running (moveRunning). */
  ghost predicate Start(s: State, s': State, id: string) {
    CanStart(s.store, s.siblings, id)
    && s' == s.(store := s.store[id := s.store[id].(status := Running)], ran := s.ran + {id})
  }

  /** Anyone else's move: to any status but running, and to done only after a run. Siblings change as
      they please. */
  ghost predicate Move(s: State, s': State, id: string, to: Status) {
    id in s.store && to != Running && (to == Done ==> id in s.ran)
    && s' == s.(store := s.store[id := s.store[id].(status := to)], siblings := s'.siblings)
  }

  ghost predicate Step(s: State, s': State) {
    (exists id :: Start(s, s', id)) || (exists id, to :: Move(s, s', id, to))
  }

  ghost predicate Trace(ss: seq<State>) {
    ss != [] && forall i :: 0 <= i < |ss| - 1 ==> Step(ss[i], ss[i + 1])
  }

  ghost predicate DependsInside(t: Task, c: set<string>) {
    exists on :: on in c && Local(on) in t.dependsOn
  }

  /** Every task of the set depends on a task of the set: a cycle, and whatever waits for one. */
  ghost predicate Entangled(store: Store, c: set<string>) {
    c <= store.Keys && forall id {:trigger DependsInside(store[id], c)} :: id in c ==> DependsInside(store[id], c)
  }

  ghost predicate Untouched(s: State, c: set<string>) {
    Entangled(s.store, c) && forall id :: id in c ==> id !in s.ran && s.store[id].status != Done
  }

  lemma CannotStart(store: Store, siblings: Siblings, c: set<string>, id: string)
    requires Entangled(store, c) && id in c && forall k :: k in c ==> store[k].status != Done
    ensures !CanStart(store, siblings, id)
  {
    assert DependsInside(store[id], c);
    var on :| on in c && Local(on) in store[id].dependsOn;
    assert !Satisfied(Local(on), store, siblings);
  }

  lemma StepKeepsUntouched(s: State, s': State, c: set<string>)
    requires Step(s, s') && Untouched(s, c)
    ensures Untouched(s', c)
  {
    if id :| Start(s, s', id) {
      if id in c { CannotStart(s.store, s.siblings, c, id); }
      SameDependencies(s.store, s'.store, c);
    } else {
      var id, to :| Move(s, s', id, to);
      SameDependencies(s.store, s'.store, c);
    }
  }

  lemma SameDependencies(store: Store, store': Store, c: set<string>)
    requires Entangled(store, c)
    requires forall id :: id in store ==> id in store' && store'[id].dependsOn == store[id].dependsOn
    ensures Entangled(store', c)
  {
    forall id | id in c ensures DependsInside(store'[id], c) {
      assert DependsInside(store[id], c);
      var on :| on in c && Local(on) in store[id].dependsOn;
      assert Local(on) in store'[id].dependsOn;
    }
  }

  /** Safety over whole runs: when tasks become done only by running, no task on a local dependency
      cycle, or waiting for one, ever starts. */
  lemma {:induction false} NoTaskOnACycleStarts(ss: seq<State>, c: set<string>)
    requires Trace(ss) && Untouched(ss[0], c)
    ensures forall i :: 0 <= i < |ss| ==> Untouched(ss[i], c)
    decreases |ss|
  {
    var n := |ss| - 1;
    if n > 0 {
      var front := ss[..n];
      forall i | 0 <= i < |front| - 1 ensures Step(front[i], front[i + 1]) { assert Step(ss[i], ss[i + 1]); }
      NoTaskOnACycleStarts(front, c);
      assert Untouched(front[n - 1], c) && Step(ss[n - 1], ss[n - 1 + 1]);
      StepKeepsUntouched(ss[n - 1], ss[n], c);
      assert forall i :: 0 <= i < n ==> ss[i] == front[i];
    }
  }

  /** Step `i` of the trace is `id`'s start. */
  ghost predicate Starts(ss: seq<State>, i: nat, id: string) {
    i < |ss| - 1 && id !in ss[i].ran && id in ss[i + 1].ran
  }

  /** `on` has not run and is not done. */
  ghost predicate Unfinished(s: State, on: string) {
    on !in s.ran && (on in s.store ==> s.store[on].status != Done)
  }

  /** What every step keeps of a task: where it is listed, what it depends on, and that being done
      means having run. */
  lemma {:induction false} DoneMeansRan(ss: seq<State>, on: string, i: nat)
    requires Trace(ss) && i < |ss| && Unfinished(ss[0], on)
    ensures on in ss[i].store && ss[i].store[on].status == Done ==> on in ss[i].ran
    ensures ss[i].store.Keys == ss[0].store.Keys && forall id :: id in ss[0].store ==> ss[i].store[id].dependsOn == ss[0].store[id].dependsOn
  {
    if i > 0 {
      DoneMeansRan(ss, on, i - 1);
      assert Step(ss[i - 1], ss[i - 1 + 1]);
    }
  }

  /** What has run since the start of the trace has started in it. */
  lemma {:induction false} RanHasStarted(ss: seq<State>, on: string, i: nat) returns (j: nat)
    requires Trace(ss) && i < |ss| && on !in ss[0].ran && on in ss[i].ran
    ensures j < i && Starts(ss, j, on)
  {
    j := i - 1;
    if on in ss[j].ran { j := RanHasStarted(ss, on, j); }
  }

  /** Dependency order over traces: a task starts only after every task it depends on, and that was
      not finished to begin with, has started strictly before, and with every sibling's task done. */
  lemma StartsInOrder(ss: seq<State>, i: nat, id: string, on: string) returns (j: nat)
    requires Trace(ss) && Starts(ss, i, id) && id in ss[0].store
    requires Local(on) in ss[0].store[id].dependsOn && Unfinished(ss[0], on)
    ensures j < i && Starts(ss, j, on)
    ensures forall alias, other :: Remote(alias, other) in ss[0].store[id].dependsOn ==> ss[i].siblings(alias, other)
  {
    DoneMeansRan(ss, on, i);
    assert Step(ss[i], ss[i + 1]);
    var started :| Start(ss[i], ss[i + 1], started);
    assert started == id && Satisfied(Local(on), ss[i].store, ss[i].siblings);
    forall alias, other | Remote(alias, other) in ss[0].store[id].dependsOn ensures ss[i].siblings(alias, other) {
      assert Satisfied(Remote(alias, other), ss[i].store, ss[i].siblings);
    }
    j := RanHasStarted(ss, on, i);
  }

  /** Each task of the path depends on the next one, and none was finished to begin with. */
  ghost predicate Chain(s: State, path: seq<string>) {
    && path != [] && (forall k :: 0 <= k < |path| ==> path[k] in s.store && Unfinished(s, path[k]))
    && forall k :: 0 <= k < |path| - 1 ==> Local(path[k + 1]) in s.store[path[k]].dependsOn
  }

  /** The same along any chain of dependencies: its tasks start in the opposite order. */
  lemma {:induction false} ChainsStartInOrder(ss: seq<State>, path: seq<string>, i: nat) returns (at: seq<nat>)
    requires Trace(ss) && Chain(ss[0], path) && Starts(ss, i, path[0])
    ensures |at| == |path| && at[0] == i && forall k :: 0 <= k < |at| ==> Starts(ss, at[k], path[k])
    ensures forall k :: 0 <= k < |at| - 1 ==> at[k + 1] < at[k]
    decreases |path|
  {
    at := [i];
    if |path| > 1 {
      var j := StartsInOrder(ss, i, path[0], path[1]);
      var rest := path[1..];
      assert forall k :: 0 <= k < |rest| ==> rest[k] == path[k + 1];
      var later := ChainsStartInOrder(ss, rest, j);
      at := [i] + later;
    }
  }

  /** The other way round: in a store of ready and done tasks with known local dependencies, nothing
      can start if and only if every unfinished task waits for an unfinished task. */
  lemma StuckIffEntangled(store: Store, siblings: Siblings)
    requires forall id :: id in store ==> store[id].status in {Ready, Done}
    requires forall id, d :: id in store && d in store[id].dependsOn ==> d.Local? && d.id in store
    ensures (forall id :: !CanStart(store, siblings, id)) <==>
            Entangled(store, set id | id in store && store[id].status == Ready)
  {
    var c := set id | id in store && store[id].status == Ready;
    if forall id :: !CanStart(store, siblings, id) {
      forall id | id in c ensures DependsInside(store[id], c) {
        assert !CanStart(store, siblings, id);
        var d :| d in store[id].dependsOn && !Satisfied(d, store, siblings);
        assert d.id in c && Local(d.id) in store[id].dependsOn;
      }
    }
    if Entangled(store, c) {
      forall id ensures !CanStart(store, siblings, id) {
        if id in c { CannotStart(store, siblings, c, id); }
      }
    }
  }
}
