/** The result outbox of a worker (cmd/trilha-runner/outbox.go, queue/remote.go): how a result is
    written down, posted, retried, set aside and found again at the next start. */
module ResultOutbox {
  import opened Wrappers

  datatype Entry = Entry(run: string, attempt: nat, body: nat)

  /** A result.json: a whole entry, or one whose writing was cut short. */
  datatype File = Whole(e: Entry) | Torn

  /** The outbox file of one run in one checkout. */
  datatype Path = Path(root: nat, run: string)

  predicate Plain(ch: char) { 'A' <= ch <= 'Z' || 'a' <= ch <= 'z' || '0' <= ch <= '9' }

  /** A run id that can name a directory. */
  predicate SafeRun(run: string) {
    1 <= |run| <= 64 && Plain(run[0]) && forall i :: 0 <= i < |run| ==> Plain(run[i]) || run[i] in {'.', '_', '-'}
  }

  /** A safe id is 1 to 64 letters, digits, dots, underscores and dashes, the first a letter or digit; it
      names one directory of its parent. */
  lemma SafeRunIsAName(run: string)
    ensures SafeRun(run) <==>
            1 <= |run| <= 64 && run[0] !in {'.', '_', '-'}
            && forall i :: 0 <= i < |run| ==>
                 '0' <= run[i] <= '9' || 'A' <= run[i] <= 'Z' || 'a' <= run[i] <= 'z' || run[i] in {'.', '_', '-'}
    ensures SafeRun(run) ==> '/' !in run && '\\' !in run && run[0] != '.'
  {
    if SafeRun(run) {
      forall i | 0 <= i < |run| ensures run[i] != '/' && run[i] != '\\' {}
    }
  }

  function PathOf(root: Option<nat>, run: string): Option<Path> {
    if root.None? || !SafeRun(run) then None else Some(Path(root.value, run))
  }

  /** What a pending file must be to be delivered at the next start. */
  predicate Deliverable(p: Path, f: File) { f.Whole? && SafeRun(f.e.run) && f.e.run == p.run }

  // What the cloud answers

  datatype Answer = NoAnswer | Status(code: int)

  datatype Verdict = Cleared | SetAside | Again

  predicate Retryable(code: int) { code >= 500 || code == 408 || code == 429 }

  predicate Success(code: int) { 200 <= code < 300 }

  /** The branches of deliver, in order. */
  function Judge(a: Answer): Verdict {
    if a.Status? && (Success(a.code) || a.code == 409) then Cleared
    else if a.Status? && !Retryable(a.code) then SetAside
    else Again
  }

  /** A status that says the cloud has a result for the run: 2xx, or 409. */
  ghost predicate HasIt(a: Answer) { a.Status? && (200 <= a.code <= 299 || a.code == 409) }

  /** A status that will not change: neither that, nor a server's error, a timeout or too many requests. */
  ghost predicate RefusesIt(a: Answer) {
    a.Status? && !(200 <= a.code <= 299) && a.code < 500 && a.code !in {408, 409, 429}
  }

  /** The branches of deliver in status codes: each answer is one of the three. */
  lemma JudgedByCode(a: Answer)
    ensures Judge(a) == Cleared <==> HasIt(a)
    ensures Judge(a) == SetAside <==> RefusesIt(a)
  {}

  /** Where the first answer that settles the matter is; |answers| when none does. */
  function Settling(answers: seq<Answer>): (n: nat)
    ensures n <= |answers| && (n < |answers| ==> HasIt(answers[n]) || RefusesIt(answers[n]))
    ensures forall i :: 0 <= i < n ==> !HasIt(answers[i]) && !RefusesIt(answers[i])
  {
    if answers == [] || Judge(answers[0]) != Again then 0 else 1 + Settling(answers[1..])
  }

  const MAX_BACKOFF: int := 30000

  function Pow2(n: nat): (r: nat) ensures r >= 1 { if n == 0 then 1 else 2 * Pow2(n - 1) }

  /** The wait after the n-th try: doubled every time, up to the bound. */
  function Backoff(first: int, n: nat): int {
    if n == 0 || first * Pow2(n) <= MAX_BACKOFF then first * Pow2(n) else MAX_BACKOFF
  }

  lemma BackoffDoubles(first: int, n: nat)
    requires first > 0
    ensures Backoff(first, n + 1) == if 2 * Backoff(first, n) > MAX_BACKOFF then MAX_BACKOFF else 2 * Backoff(first, n)
  {
    assert first * Pow2(n + 1) == 2 * (first * Pow2(n));
    assert n == 0 ==> first * Pow2(n) == first;
  }

  /** Each wait is twice the one before it, up to thirty seconds. */
  ghost predicate Doubling(waits: seq<int>) {
    forall i :: 0 < i < |waits| ==> waits[i] == if 2 * waits[i - 1] > 30_000 then 30_000 else 2 * waits[i - 1]
  }

  lemma WaitsDouble(first: int, waits: seq<int>)
    requires first > 0 && forall i :: 0 <= i < |waits| ==> waits[i] == Backoff(first, i)
    ensures Doubling(waits) && (waits != [] ==> waits[0] == first)
  {
    forall i | 0 < i < |waits| ensures waits[i] == if 2 * waits[i - 1] > 30_000 then 30_000 else 2 * waits[i - 1] {
      BackoffDoubles(first, i - 1);
    }
  }

  /** What a flush made of a file it removed: set aside when it was no result to deliver or the cloud
      refused it, gone when the cloud has it. */
  ghost predicate Flushed(f: File, answers: seq<Answer>, had: Option<File>, has: Option<File>) {
    if !f.Whole? || !SafeRun(f.e.run) then has == Some(f)
    else Settling(answers) < |answers| && has == if RefusesIt(answers[Settling(answers)]) then Some(f) else had
  }

  function At(files: map<Path, File>, p: Path): Option<File> {
    if p in files then Some(files[p]) else None
  }

  /** The files of the outboxes. */
  class Outbox {
    var pending: map<Path, File>
    var tmp: map<Path, File>
    var rejected: map<Path, File>

    constructor ()
      ensures pending == map[] && tmp == map[] && rejected == map[]
    {
      pending, tmp, rejected := map[], map[], map[];
    }

    /** A temporary file first, then its name. */
    method Write(root: Option<nat>, e: Entry) returns (path: Option<Path>)
      modifies this
      ensures path == PathOf(root, e.run) && rejected == old(rejected)
      ensures path.Some? ==> Deliverable(path.value, Whole(e))
      ensures pending == if path.None? then old(pending) else old(pending)[path.value := Whole(e)]
      ensures path.Some? ==> path.value !in tmp
    {
      path := PathOf(root, e.run);
      if path.None? { return; }
      tmp := tmp[path.value := Whole(e)];
      pending := pending[path.value := tmp[path.value]];
      tmp := tmp - {path.value};
    }

    /** Posts until an answer settles it, or the worker is told to stop when the answers run out. The
        file is removed, set aside or left exactly as the first settling answer says. */
    method Deliver(path: Option<Path>, answers: seq<Answer>, retryBase: int) returns (settled: bool, waits: seq<int>)
      modifies this
      ensures tmp == old(tmp)
      ensures settled <==> Settling(answers) < |answers|
      ensures !settled || path.None? ==> pending == old(pending) && rejected == old(rejected)
      ensures settled && path.Some? ==> pending == old(pending) - {path.value}
      ensures settled && path.Some? && path.value in old(pending) ==>
                && (RefusesIt(answers[Settling(answers)]) ==> rejected == old(rejected)[path.value := old(pending)[path.value]])
                && (HasIt(answers[Settling(answers)]) ==> rejected == old(rejected))
      ensures path.Some? && path.value !in old(pending) ==> rejected == old(rejected)
      ensures |waits| == Settling(answers)
      // The first wait is the base, a second when none is given; each later one is doubled, up to 30 s.
      ensures waits != [] ==> waits[0] == if retryBase <= 0 then 1000 else retryBase
      ensures Doubling(waits)
      ensures forall i :: 0 <= i < |waits| ==> waits[i] == Backoff(if retryBase <= 0 then 1000 else retryBase, i)
    {
      var first := if retryBase <= 0 then 1000 else retryBase;
      var delay := first;
      waits := [];
      var n := 0;
      while n < |answers|
        invariant n <= |answers| && Settling(answers) == n + Settling(answers[n..])
        invariant pending == old(pending) && rejected == old(rejected) && tmp == old(tmp)
        invariant delay == Backoff(first, n) && |waits| == n
        invariant forall i :: 0 <= i < n ==> waits[i] == Backoff(first, i)
      {
        assert answers[n..][0] == answers[n] && answers[n..][1..] == answers[n + 1..];
        if Judge(answers[n]) != Again {
          Settle(path, answers[n]);
          WaitsDouble(first, waits);
          return true, waits;
        }
        waits := waits + [delay];
        BackoffDoubles(first, n);
        delay := delay * 2;
        if delay > MAX_BACKOFF { delay := MAX_BACKOFF; }
        n := n + 1;
      }
      WaitsDouble(first, waits);
      settled := false;
    }

    /** The file is removed when the cloud has the result, set aside when it refuses it. */
    method Settle(path: Option<Path>, a: Answer)
      requires Judge(a) != Again
      modifies this
      ensures tmp == old(tmp) && pending == if path.None? then old(pending) else old(pending) - {path.value}
      ensures path.None? || path.value !in old(pending) || HasIt(a) ==> rejected == old(rejected)
      ensures path.Some? && path.value in old(pending) && RefusesIt(a) ==> rejected == old(rejected)[path.value := old(pending)[path.value]]
    {
      JudgedByCode(a);
      match Judge(a)
      case Cleared => if path.Some? { pending := pending - {path.value}; }
      case SetAside => if path.Some? { Reject(path.value); }
      case Again =>
    }

    /** os.Rename to result.rejected.json. */
    method Reject(p: Path)
      modifies this
      ensures tmp == old(tmp) && pending == old(pending) - {p}
      ensures rejected == if p in old(pending) then old(rejected)[p := old(pending)[p]] else old(rejected)
    {
      if p in pending { rejected := rejected[p := pending[p]]; }
      pending := pending - {p};
    }

    /** Each pending result, oldest first; a stop leaves the rest where it was. */
    method Flush(paths: seq<Path>, answers: nat -> seq<Answer>, retryBase: int) returns (flushed: bool)
      modifies this
      ensures tmp == old(tmp)
      ensures flushed ==> forall p :: p in pending <==> p in old(pending) && p !in paths
      ensures forall p :: p in pending ==> p in old(pending) && pending[p] == old(pending)[p]
      ensures forall p :: p in old(pending) && p !in paths ==> p in pending
      ensures flushed <== forall i :: 0 <= i < |paths| ==> Settling(answers(i)) < |answers(i)|
      ensures forall p :: p !in paths ==> At(rejected, p) == At(old(rejected), p)
      ensures Distinct(paths) ==> forall i :: 0 <= i < |paths| && paths[i] in old(pending) && paths[i] !in pending ==>
                Flushed(old(pending)[paths[i]], answers(i), At(old(rejected), paths[i]), At(rejected, paths[i]))
    {
      for i := 0 to |paths|
        invariant tmp == old(tmp)
        invariant forall p :: p in pending <==> p in old(pending) && p !in paths[..i]
        invariant forall p :: p in pending ==> pending[p] == old(pending)[p]
        invariant forall p :: p !in paths[..i] ==> At(rejected, p) == At(old(rejected), p)
        invariant Distinct(paths) ==> forall k :: 0 <= k < i && paths[k] in old(pending) ==>
                    Flushed(old(pending)[paths[k]], answers(k), At(old(rejected), paths[k]), At(rejected, paths[k]))
      {
        var p := paths[i];
        assert paths[..i + 1] == paths[..i] + [p];
        if p !in pending { continue; }
        if !pending[p].Whole? || !SafeRun(pending[p].e.run) {
          Reject(p);
          continue;
        }
        var settled, _ := Deliver(Some(p), answers(i), retryBase);
        if !settled { return false; }
      }
      assert paths[..|paths|] == paths;
      flushed := true;
    }
  }

  predicate Distinct(paths: seq<Path>) {
    forall i, j :: 0 <= i < j < |paths| ==> paths[i] != paths[j]
  }

  ghost predicate OldestFirst(paths: seq<Path>, time: Path -> int) {
    forall i, j :: 0 <= i < j < |paths| ==> time(paths[i]) <= time(paths[j])
  }

  /** Every result under the roots once, however often a root is listed, oldest first. */
  method PendingOutbox(roots: seq<Option<nat>>, matches: nat -> seq<Path>, time: Path -> int) returns (found: seq<Path>)
    ensures Distinct(found) && OldestFirst(found, time)
    ensures forall p :: p in found <==> exists i :: 0 <= i < |roots| && roots[i].Some? && p in matches(roots[i].value)
  {
    found := [];
    for i := 0 to |roots|
      invariant Distinct(found)
      invariant forall p :: p in found <==> exists k :: 0 <= k < i && roots[k].Some? && p in matches(roots[k].value)
    {
      if roots[i].None? { continue; }
      found := Merge(found, matches(roots[i].value));
    }
    found := Sort(found, time);
  }

  method Sort(paths: seq<Path>, time: Path -> int) returns (r: seq<Path>)
    requires Distinct(paths)
    ensures Distinct(r) && OldestFirst(r, time) && forall p :: p in r <==> p in paths
  {
    r := [];
    for n := 0 to |paths|
      invariant Distinct(r) && OldestFirst(r, time) && forall p :: p in r <==> p in paths[..n]
    {
      assert paths[..n + 1] == paths[..n] + [paths[n]];
      r := Insert(r, paths[n], time);
    }
    assert paths[..|paths|] == paths;
  }

  method Insert(sorted: seq<Path>, p: Path, time: Path -> int) returns (r: seq<Path>)
    requires Distinct(sorted) && OldestFirst(sorted, time) && p !in sorted
    ensures Distinct(r) && OldestFirst(r, time) && forall x :: x in r <==> x in sorted || x == p
  {
    var k := 0;
    while k < |sorted| && time(sorted[k]) <= time(p)
      invariant k <= |sorted| && forall i :: 0 <= i < k ==> time(sorted[i]) <= time(p)
    {
      k := k + 1;
    }
    r := sorted[..k] + [p] + sorted[k..];
    InsertedHas(sorted, p, k);
    InsertedApart(sorted, p, k);
    InsertedInOrder(sorted, p, k, time);
  }

  lemma InsertedHas(sorted: seq<Path>, p: Path, k: nat)
    requires k <= |sorted|
    ensures forall x :: x in sorted[..k] + [p] + sorted[k..] <==> x in sorted || x == p
  {
    assert sorted == sorted[..k] + sorted[k..];
  }

  lemma InsertedApart(sorted: seq<Path>, p: Path, k: nat)
    requires k <= |sorted| && Distinct(sorted) && p !in sorted
    ensures Distinct(sorted[..k] + [p] + sorted[k..])
  {
    var r := sorted[..k] + [p] + sorted[k..];
    assert forall i :: 0 <= i < |r| ==> r[i] == if i < k then sorted[i] else if i == k then p else sorted[i - 1];
  }

  lemma InsertedInOrder(sorted: seq<Path>, p: Path, k: nat, time: Path -> int)
    requires k <= |sorted| && OldestFirst(sorted, time)
    requires (forall i :: 0 <= i < k ==> time(sorted[i]) <= time(p)) && (k < |sorted| ==> time(p) <= time(sorted[k]))
    ensures OldestFirst(sorted[..k] + [p] + sorted[k..], time)
  {
    var r := sorted[..k] + [p] + sorted[k..];
    assert forall i :: 0 <= i < |r| ==> r[i] == if i < k then sorted[i] else if i == k then p else sorted[i - 1];
    assert forall i :: k < i < |sorted| ==> time(sorted[k]) <= time(sorted[i]);
  }

  method Merge(found: seq<Path>, matches: seq<Path>) returns (r: seq<Path>)
    requires Distinct(found)
    ensures Distinct(r) && forall p :: p in r <==> p in found || p in matches
  {
    r := found;
    for j := 0 to |matches|
      invariant Distinct(r) && forall p :: p in r <==> p in found || p in matches[..j]
    {
      assert matches[..j + 1] == matches[..j] + [matches[j]];
      if matches[j] !in r { r := r + [matches[j]]; }
    }
    assert matches[..|matches|] == matches;
  }
}
