/** The refs of a repository under the runner (worktree/target.go, worktree.go, doctor.go): how a run
    gets its branch, what it commits, what is cleaned and pruned. What git, the disk and origin answer
    is an environment. */
module Branches {
  import opened Wrappers
  import opened Text

  // Commits

  /** Commits are numbered as they are made, by anyone; `history[c]` are the parents of `c`. */
  type History = seq<seq<nat>>

  /** git merge-base --is-ancestor: `past` is `c` or behind it. */
  predicate Reach(history: History, c: nat, past: nat) {
    c == past || (c < |history| && exists i :: 0 <= i < |history[c]| && history[c][i] < c && Reach(history, history[c][i], past))
  }

  lemma {:induction false} ReachTransitive(history: History, a: nat, b: nat, c: nat)
    requires Reach(history, a, b) && Reach(history, b, c)
    ensures Reach(history, a, c)
  {
    if a != b {
      var i :| 0 <= i < |history[a]| && history[a][i] < a && Reach(history, history[a][i], b);
      ReachTransitive(history, history[a][i], b, c);
    }
  }

  ghost predicate Grows(a: History, b: History) { |a| <= |b| && b[..|a|] == a }

  lemma {:induction false} ReachGrows(a: History, b: History, c: nat, past: nat)
    requires Grows(a, b) && Reach(a, c, past)
    ensures Reach(b, c, past)
  {
    if c != past {
      var i :| 0 <= i < |a[c]| && a[c][i] < c && Reach(a, a[c][i], past);
      assert b[c] == b[..|a|][c] == a[c];
      ReachGrows(a, b, a[c][i], past);
    }
  }

  /** A chain of parents from one commit back to another. */
  ghost predicate IsLine(history: History, line: seq<nat>, c: nat, past: nat) {
    && line != [] && line[0] == c && line[|line| - 1] == past
    && forall i :: 0 <= i < |line| - 1 ==> line[i] < |history| && line[i + 1] in history[line[i]] && line[i + 1] < line[i]
  }

  /** What ancestry means: a chain of parents. */
  lemma {:induction false} ReachIsALine(history: History, c: nat, past: nat) returns (line: seq<nat>)
    requires Reach(history, c, past)
    ensures IsLine(history, line, c, past)
  {
    if c == past { return [c]; }
    var i :| 0 <= i < |history[c]| && history[c][i] < c && Reach(history, history[c][i], past);
    line := ReachIsALine(history, history[c][i], past);
    line := [c] + line;
  }

  lemma {:induction false} LineIsReach(history: History, line: seq<nat>, c: nat, past: nat)
    requires IsLine(history, line, c, past)
    ensures Reach(history, c, past)
    decreases |line|
  {
    if |line| > 1 {
      var rest := line[1..];
      assert forall i :: 0 <= i < |rest| ==> rest[i] == line[i + 1];
      LineIsReach(history, rest, line[1], past);
      var i :| 0 <= i < |history[c]| && history[c][i] == line[1];
    }
  }

  // The repository

  datatype Ref = Local(name: string) | Remote(name: string)

  datatype Head = On(branch: string) | At(commit: nat)

  /** The worktree of a run directory; `checkout` when it holds a .git. */
  datatype Tree = Tree(head: Head, dirty: bool, checkout: bool)

  datatype Repo = Repo(history: History, heads: map<string, nat>, remotes: map<string, nat>, root: Head,
                       trees: map<string, Tree>, proofs: map<string, string>)

  function Value(s: Repo, r: Ref): Option<nat> {
    match r
    case Local(b) => if b in s.heads then Some(s.heads[b]) else None
    case Remote(b) => if b in s.remotes then Some(s.remotes[b]) else None
  }

  function HeadCommit(s: Repo): Option<nat> {
    match s.root
    case On(b) => Value(s, Local(b))
    case At(c) => Some(c)
  }

  predicate Has(s: Repo, key: string) { key in s.trees && s.trees[key].checkout }

  /** git neither checks out, moves nor deletes a branch that is checked out somewhere. */
  predicate CheckedOut(s: Repo, b: string) {
    s.root == On(b) || exists key :: key in s.trees && s.trees[key].head == On(b)
  }

  predicate Proves(s: Repo, key: string, b: string) { key in s.proofs && s.proofs[key] == b }

  // What git answers

  /** git worktree add: nothing, only the new branch, or all of it. */
  datatype Add = Refused | BranchOnly | Added

  datatype Git = Git(fetched: Option<nat>, add: Add, proved: bool, moved: bool, removed: bool)

  function Fetched(s: Repo, b: string, tip: Option<nat>): Repo {
    if tip.None? then s else s.(remotes := s.remotes[b := tip.value])
  }

  function WithTree(s: Repo, key: string, head: Head): Repo {
    s.(trees := s.trees[key := Tree(head, false, true)])
  }

  /** git worktree add <path> <branch>. */
  function AddOn(s: Repo, key: string, b: string, add: Add): Repo {
    if add.Added? && !CheckedOut(s, b) then WithTree(s, key, On(b)) else s
  }

  /** git worktree add -b <branch> <path> <commit>. */
  function AddNew(s: Repo, key: string, b: string, c: Option<nat>, add: Add): Repo {
    if add.Refused? || c.None? || b in s.heads then s
    else if add.BranchOnly? then s.(heads := s.heads[b := c.value])
    else WithTree(s.(heads := s.heads[b := c.value]), key, On(b))
  }

  function Prove(s: Repo, key: string, b: string, written: bool): Repo {
    if written then s.(proofs := s.proofs[key := b]) else s
  }

  /** A new branch from HEAD, with its proof once it is there. */
  function CutNew(s: Repo, key: string, b: string, g: Git): Repo {
    if g.add.Added? && HeadCommit(s).Some? then Prove(AddNew(s, key, b, HeadCommit(s), g.add), key, b, g.proved)
    else AddNew(s, key, b, HeadCommit(s), g.add)
  }

  // The modes of Open

  const MAX_VARIANT_SUFFIX: nat := 20

  function Candidate(b: string, n: nat): string {
    if n > 1 then b + "-" + Decimal(n) else b
  }

  /** A candidate a variant may take: nobody has it, or this run made it. */
  predicate Takes(s: Repo, key: string, b: string) {
    (b !in s.heads && b !in s.remotes) || (b in s.heads && Proves(s, key, b))
  }

  /** The least candidate from `n` on that the variant may take, or one past the bound. */
  function Choose(s: Repo, key: string, b: string, n: nat): (r: nat)
    requires n <= MAX_VARIANT_SUFFIX + 1
    ensures n <= r <= MAX_VARIANT_SUFFIX + 1
    ensures r <= MAX_VARIANT_SUFFIX ==> Takes(s, key, Candidate(b, r))
    ensures forall k :: n <= k < r ==> !Takes(s, key, Candidate(b, k))
    decreases MAX_VARIANT_SUFFIX + 1 - n
  {
    if n > MAX_VARIANT_SUFFIX || Takes(s, key, Candidate(b, n)) then n else Choose(s, key, b, n + 1)
  }

  function OwnNext(s: Repo, key: string, b: string, g: Git): Repo {
    if Has(s, key) then s
    else if b in s.heads then AddOn(s, key, b, g.add)
    else CutNew(s, key, b, g)
  }

  function VariantNext(s: Repo, key: string, b: string, g: Git): Repo {
    if Has(s, key) then s
    else
      var s1 := Fetched(s, b, g.fetched);
      var n := Choose(s1, key, b, 1);
      if n > MAX_VARIANT_SUFFIX then s1
      else if Candidate(b, n) in s1.heads then AddOn(s1, key, Candidate(b, n), g.add)
      else CutNew(s1, key, Candidate(b, n), g)
  }

  /** The branch a variant's run works on. */
  function WorksOn(s: Repo, key: string, b: string, g: Git): Option<string> {
    if Has(s, key) then Some(if key in s.proofs && s.proofs[key] != "" then s.proofs[key] else b)
    else
      var n := Choose(Fetched(s, b, g.fetched), key, b, 1);
      if n > MAX_VARIANT_SUFFIX then None else Some(Candidate(b, n))
  }

  function Forwarded(s: Repo, b: string, g: Git): Repo {
    if b in s.heads && b in s.remotes && Reach(s.history, s.remotes[b], s.heads[b]) && g.moved && !CheckedOut(s, b)
    then s.(heads := s.heads[b := s.remotes[b]]) else s
  }

  function ExistingNext(s: Repo, key: string, b: string, g: Git): Repo {
    if Has(s, key) then s
    else
      var s1 := Fetched(s, b, g.fetched);
      if b in s1.heads then AddOn(Forwarded(s1, b, g), key, b, g.add)
      else AddNew(s1, key, b, Value(s1, Remote(b)), g.add)
  }

  /** Where a read-only run starts: origin's copy when it is ahead, else the local branch. */
  function Tip(s: Repo, b: string): Option<nat> {
    if b in s.heads && !(b in s.remotes && Reach(s.history, s.remotes[b], s.heads[b])) then Some(s.heads[b])
    else Value(s, Remote(b))
  }

  function DetachedNext(s: Repo, key: string, b: string, g: Git): Repo {
    var s1 := Fetched(s, b, g.fetched);
    if Tip(s1, b).None? then s1
    else if Has(s1, key) && !g.removed then s1
    else
      var s2 := if Has(s1, key) then s1.(trees := s1.trees - {key}) else s1;
      if g.add.Added? then WithTree(s2, key, At(Tip(s2, b).value)) else s2
  }

  // Commit and Clean

  /** git add -A and commit, in a worktree with something to commit. */
  function CommitNext(s: Repo, key: string, done: bool): Repo {
    if key !in s.trees || !s.trees[key].dirty || !done then s
    else
      var c, tree := |s.history|, s.trees[key];
      match tree.head
      case On(b) =>
        s.(history := s.history + [if b in s.heads then [s.heads[b]] else []], heads := s.heads[b := c],
           trees := s.trees[key := tree.(dirty := false)])
      case At(past) =>
        s.(history := s.history + [[past]], trees := s.trees[key := tree.(head := At(c), dirty := false)])
  }

  /** git worktree remove --force: done, not a worktree of git's (the run directory goes), or failed. */
  datatype Removal = Removed | NotATree | RemovalFails

  function RemoveNext(s: Repo, key: string, r: Removal): Repo {
    match r
    case Removed => s.(trees := s.trees - {key})
    case NotATree => s.(trees := s.trees - {key}, proofs := s.proofs - {key})
    case RemovalFails => s
  }

  // The doctor

  datatype Class = Live | FinishedKept | Orphaned | MetadataOnly

  /** What the machine says of a run directory: who is in it, what git answers there, what is known. */
  datatype Sight = Sight(held: bool, branchRead: bool, statusRead: bool, listed: bool, taskKnown: bool, age: int)

  datatype Options = Options(pruneOrphans: bool, olderThan: int, force: bool, branch: string)

  datatype Entry = Entry(key: string, kind: Class, branch: Option<string>, proven: bool, merged: Option<bool>, dirty: bool, age: int)

  /** What a doctor may measure against, in the order it looks. */
  function Candidates(branch: string, originHead: Option<string>): seq<Ref> {
    (if branch != "" then [Remote(branch), Local(branch)] else [])
    + (if originHead.Some? then [Remote(originHead.value)] else [])
    + [Remote("main"), Local("main"), Local("master")]
  }

  /** The first of them that is there. */
  function BaseRef(s: Repo, branch: string, originHead: Option<string>): (r: Option<Ref>)
    ensures r.None? ==> forall x :: x in Candidates(branch, originHead) ==> Value(s, x).None?
    ensures r.Some? ==> IsFirst(s, Candidates(branch, originHead), r.value)
  {
    First(s, Candidates(branch, originHead))
  }

  ghost predicate IsFirst(s: Repo, refs: seq<Ref>, r: Ref) {
    exists i :: 0 <= i < |refs| && refs[i] == r && Value(s, r).Some? && forall j :: 0 <= j < i ==> Value(s, refs[j]).None?
  }

  function First(s: Repo, refs: seq<Ref>): (r: Option<Ref>)
    ensures r.None? ==> forall x :: x in refs ==> Value(s, x).None?
    ensures r.Some? ==> IsFirst(s, refs, r.value)
  {
    if refs == [] then None
    else if Value(s, refs[0]).Some? then
      assert refs[0] == refs[0] && IsFirst(s, refs, refs[0]);
      Some(refs[0])
    else
      var r := First(s, refs[1..]);
      assert r.Some? ==> IsFirst(s, refs, r.value) by { if r.Some? { FirstOfRest(s, refs, r.value); } }
      r
  }

  lemma FirstOfRest(s: Repo, refs: seq<Ref>, r: Ref)
    requires refs != [] && Value(s, refs[0]).None? && IsFirst(s, refs[1..], r)
    ensures IsFirst(s, refs, r)
  {
    var rest := refs[1..];
    var i :| 0 <= i < |rest| && rest[i] == r && Value(s, r).Some? && forall j :: 0 <= j < i ==> Value(s, rest[j]).None?;
    forall j | 0 <= j < i + 1 ensures Value(s, refs[j]).None? { assert j > 0 ==> refs[j] == rest[j - 1]; }
    assert refs[i + 1] == r;
  }

  /** The doctor's base, ref by ref. */
  lemma BaseRefIs(s: Repo, branch: string, originHead: Option<string>)
    ensures BaseRef(s, branch, originHead) ==
            if branch != "" && branch in s.remotes then Some(Remote(branch))
            else if branch != "" && branch in s.heads then Some(Local(branch))
            else if originHead.Some? && originHead.value in s.remotes then Some(Remote(originHead.value))
            else if "main" in s.remotes then Some(Remote("main"))
            else if "main" in s.heads then Some(Local("main"))
            else if "master" in s.heads then Some(Local("master"))
            else None
  {
    var named := if branch != "" then [Remote(branch), Local(branch)] else [];
    var head := if originHead.Some? then [Remote(originHead.value)] else [];
    var rest := [Remote("main"), Local("main"), Local("master")];
    FirstConcat(s, named, head);
    FirstConcat(s, named + head, rest);
    FirstOfThree(s, Remote("main"), Local("main"), Local("master"));
    if branch != "" {
      assert named[1..] == [Local(branch)] && named[1..][1..] == [];
    }
    if originHead.Some? { assert head[1..] == []; }
  }

  lemma {:induction false} FirstConcat(s: Repo, a: seq<Ref>, b: seq<Ref>)
    ensures First(s, a + b) == if First(s, a).Some? then First(s, a) else First(s, b)
    decreases |a|
  {
    if a == [] {
      assert a + b == b;
    } else {
      assert (a + b)[0] == a[0] && (a + b)[1..] == a[1..] + b;
      FirstConcat(s, a[1..], b);
    }
  }

  lemma FirstOfThree(s: Repo, a: Ref, b: Ref, c: Ref)
    ensures First(s, [a, b, c]) == if Value(s, a).Some? then Some(a) else if Value(s, b).Some? then Some(b)
                                   else if Value(s, c).Some? then Some(c) else None
  {
    assert [a, b, c][1..] == [b, c] && [b, c][1..] == [c] && [c][1..] == [];
  }

  function BranchSeen(s: Repo, key: string, sight: Sight): Option<string> {
    if Has(s, key) && sight.branchRead && s.trees[key].head.On? then Some(s.trees[key].head.branch) else None
  }

  function Inspect(s: Repo, key: string, base: Option<Ref>, sight: Sight): Entry {
    var branch := BranchSeen(s, key, sight);
    var merged := if branch.Some? && base.Some? then Some(Merged(s, branch.value, base.value)) else None;
    var kind := if sight.held then Live
                  else if key !in s.trees then MetadataOnly
                  else if !Has(s, key) || !sight.listed || !sight.taskKnown then Orphaned
                  else FinishedKept;
    Entry(key, kind, branch, branch.Some? && Proves(s, key, branch.value), merged,
          Has(s, key) && sight.statusRead && s.trees[key].dirty, sight.age)
  }

  predicate Merged(s: Repo, b: string, base: Ref) {
    b in s.heads && Value(s, base).Some? && Reach(s.history, Value(s, base).value, s.heads[b])
  }

  predicate Wanted(e: Entry, o: Options) {
    e.kind != Live && ((o.pruneOrphans && e.kind == Orphaned) || (o.olderThan > 0 && e.age > o.olderThan))
  }

  predicate Skips(e: Entry, o: Options) {
    !o.force && ((e.branch.Some? && e.merged != Some(true)) || e.dirty)
  }

  /** What removing answers: git's removal, then the directory's, then the branch's. */
  datatype Pruning = Pruning(treeGone: bool, proofGone: bool, dirGone: bool, branchGone: bool)

  function PruneNext(s: Repo, e: Entry, o: Options, p: Pruning): Repo {
    if Skips(e, o) then s
    else if !p.dirGone then
      s.(trees := if p.treeGone then s.trees - {e.key} else s.trees, proofs := if p.proofGone then s.proofs - {e.key} else s.proofs)
    else
      var s1 := s.(trees := s.trees - {e.key}, proofs := s.proofs - {e.key});
      if e.branch.Some? && e.proven && p.branchGone && !CheckedOut(s1, e.branch.value)
      then s1.(heads := s1.heads - {e.branch.value}) else s1
  }

  // No work lost

  /** Reachable from a local branch or from a base ref. */
  ghost predicate Saved(s: Repo, bases: set<Ref>, c: nat) {
    || (exists b :: b in s.heads && Reach(s.history, s.heads[b], c))
    || (exists r :: r in bases && Value(s, r).Some? && Reach(s.history, Value(s, r).value, c))
  }

  /** Every branch is where it was or further on, or was merged into a base; the base refs advance. */
  ghost predicate Forward(s: Repo, bases: set<Ref>, s': Repo) {
    && Grows(s.history, s'.history)
    && (forall b :: b in s.heads ==> b in s'.heads || MergedIntoOne(s, bases, b))
    && (forall b :: b in s.heads && b in s'.heads ==> Reach(s'.history, s'.heads[b], s.heads[b]))
    && Advance(s, bases, s')
  }

  ghost predicate MergedIntoOne(s: Repo, bases: set<Ref>, b: string) {
    exists r :: r in bases && Merged(s, b, r)
  }

  ghost predicate Advance(s: Repo, bases: set<Ref>, s': Repo) {
    forall r :: r in bases && Value(s, r).Some? ==>
                  Value(s', r).Some? && Reach(s'.history, Value(s', r).value, Value(s, r).value)
  }

  lemma ForwardSaves(s: Repo, bases: set<Ref>, s': Repo, c: nat)
    requires Forward(s, bases, s') && Saved(s, bases, c)
    ensures Saved(s', bases, c)
  {
    if b :| b in s.heads && Reach(s.history, s.heads[b], c) {
      if b in s'.heads {
        ReachGrows(s.history, s'.history, s.heads[b], c);
        ReachTransitive(s'.history, s'.heads[b], s.heads[b], c);
      } else {
        var r :| r in bases && Merged(s, b, r);
        ReachTransitive(s.history, Value(s, r).value, s.heads[b], c);
        BaseSaves(s, bases, s', r, c);
      }
    } else {
      var r :| r in bases && Value(s, r).Some? && Reach(s.history, Value(s, r).value, c);
      BaseSaves(s, bases, s', r, c);
    }
  }

  lemma BaseSaves(s: Repo, bases: set<Ref>, s': Repo, r: Ref, c: nat)
    requires Forward(s, bases, s') && r in bases && Value(s, r).Some? && Reach(s.history, Value(s, r).value, c)
    ensures Saved(s', bases, c)
  {
    ReachGrows(s.history, s'.history, Value(s, r).value, c);
    ReachTransitive(s'.history, Value(s', r).value, Value(s, r).value, c);
  }

  // Runs of the runner in a world that only adds

  /** How a run gets its branch. */
  datatype Mode = Own | Variant | Existing | Detached

  datatype Target = Target(key: string, branch: string, mode: Mode)

  datatype Op =
    | OpenOp(t: Target, g: Git)
    | CommitOp(key: string, done: bool)
    | RemoveOp(key: string, r: Removal)
    | PruneOp(key: string, base: Option<Ref>, sight: Sight, o: Options, p: Pruning)
    | Elsewhere(after: Repo)      // agents, people and origin: branches only grow

  /** No base ref is a branch a run made. */
  ghost predicate Apart(s: Repo, bases: set<Ref>) {
    forall key :: key in s.proofs ==> Local(s.proofs[key]) !in bases
  }

  /** Origin's copy of a base is fetched only further on. */
  predicate FetchAdvances(s: Repo, bases: set<Ref>, b: string, tip: Option<nat>) {
    tip.Some? && Remote(b) in bases && b in s.remotes ==> Reach(s.history, tip.value, s.remotes[b])
  }

  /** Every ref names a commit there is. */
  ghost predicate Valid(s: Repo) {
    (forall r :: Value(s, r).Some? ==> Value(s, r).value < |s.history|) && (s.root.At? ==> s.root.commit < |s.history|)
  }

  ghost predicate Allowed(s: Repo, bases: set<Ref>, op: Op) {
    match op
    case OpenOp(t, g) => FetchAdvances(s, bases, t.branch, g.fetched) && (g.fetched.Some? ==> g.fetched.value < |s.history|)
    case CommitOp(_, _) => true
    case RemoveOp(_, _) => true
    case PruneOp(_, base, _, o, _) => !o.force && Apart(s, bases) && (base.Some? ==> base.value in bases)
    case Elsewhere(after) =>
      Valid(after) && Grows(s.history, after.history) && Advance(s, bases, after)
      && forall b :: b in s.heads ==> b in after.heads && Reach(after.history, after.heads[b], s.heads[b])
  }

  function OpenNext(s: Repo, t: Target, g: Git): Repo {
    match t.mode
    case Own => OwnNext(s, t.key, t.branch, g)
    case Variant => VariantNext(s, t.key, t.branch, g)
    case Existing => ExistingNext(s, t.key, t.branch, g)
    case Detached => DetachedNext(s, t.key, t.branch, g)
  }

  function OpNext(s: Repo, op: Op): Repo {
    match op
    case OpenOp(t, g) => OpenNext(s, t, g)
    case CommitOp(key, done) => CommitNext(s, key, done)
    case RemoveOp(key, r) => RemoveNext(s, key, r)
    case PruneOp(key, base, sight, o, p) => var e := Inspect(s, key, base, sight); if Wanted(e, o) then PruneNext(s, e, o, p) else s
    case Elsewhere(after) => after
  }

  ghost predicate Runs(s: Repo, bases: set<Ref>, ops: seq<Op>, s': Repo)
    decreases |ops|
  {
    if ops == [] then s' == s
    else Allowed(s, bases, ops[0]) && Runs(OpNext(s, ops[0]), bases, ops[1..], s')
  }

  /** Local branches stay, each where it was or, for `b`, at a descendant. */
  ghost predicate HeadsStay(s: Repo, b: string, s': Repo) {
    && s'.history == s.history
    && (forall x :: x in s.heads ==> x in s'.heads && (s'.heads[x] == s.heads[x] || (x == b && Reach(s.history, s'.heads[x], s.heads[x]))))
    && (forall x :: x in s.remotes ==> x in s'.remotes && (x == b || s'.remotes[x] == s.remotes[x]))
  }

  /** Refs are only added. */
  ghost predicate Adds(s: Repo, s': Repo) {
    && s'.history == s.history && s'.remotes == s.remotes && s'.root == s.root
    && forall x :: x in s.heads ==> x in s'.heads && s'.heads[x] == s.heads[x]
  }

  /** What the run's branch may become, and nothing else does. */
  ghost predicate Opens(s: Repo, t: Target, g: Git, s': Repo) {
    && HeadsStay(s, t.branch, s') && s'.root == s.root
    && (t.branch in s.remotes ==> s'.remotes[t.branch] == s.remotes[t.branch] || g.fetched == Some(s'.remotes[t.branch]))
    && forall x :: x in s.heads && s'.heads[x] != s.heads[x] ==>
                     t.mode == Existing && x == t.branch && x in s'.remotes && s'.heads[x] == s'.remotes[x]
  }

  lemma AddOnAdds(s: Repo, key: string, b: string, add: Add)
    ensures Adds(s, AddOn(s, key, b, add))
  {}

  lemma CutNewAdds(s: Repo, key: string, b: string, g: Git)
    ensures Adds(s, CutNew(s, key, b, g))
  {}

  lemma OpensOwn(s: Repo, t: Target, g: Git)
    requires t.mode == Own
    ensures Adds(s, OwnNext(s, t.key, t.branch, g))
  {
    AddOnAdds(s, t.key, t.branch, g.add);
    CutNewAdds(s, t.key, t.branch, g);
  }

  lemma OpensVariant(s: Repo, t: Target, g: Git)
    requires t.mode == Variant && !Has(s, t.key)
    ensures Adds(Fetched(s, t.branch, g.fetched), VariantNext(s, t.key, t.branch, g))
  {
    var s1 := Fetched(s, t.branch, g.fetched);
    var b := Candidate(t.branch, Choose(s1, t.key, t.branch, 1));
    AddOnAdds(s1, t.key, b, g.add);
    CutNewAdds(s1, t.key, b, g);
  }

  lemma OpensExisting(s: Repo, t: Target, g: Git)
    requires t.mode == Existing && !Has(s, t.key)
    ensures var s1 := Fetched(s, t.branch, g.fetched);
            Adds(if t.branch in s.heads then Forwarded(s1, t.branch, g) else s1, ExistingNext(s, t.key, t.branch, g))
  {}

  lemma OpensDetached(s: Repo, t: Target, g: Git)
    requires t.mode == Detached
    ensures Adds(Fetched(s, t.branch, g.fetched), DetachedNext(s, t.key, t.branch, g))
  {}

  /** For every mode and every answer of git: an Open moves at most the branch it is about, and that
      one only to a descendant, only for a run on an existing branch, and only to origin's copy. */
  lemma OpenMovesForward(s: Repo, t: Target, g: Git)
    ensures Opens(s, t, g, OpenNext(s, t, g))
  {
    if Has(s, t.key) && t.mode != Detached { return; }
    var s' := OpenNext(s, t, g);
    var s1 := Fetched(s, t.branch, g.fetched);
    match t.mode
    case Own =>
      OpensOwn(s, t, g);
      AddsOpens(s, t, g, s, s');
    case Variant =>
      OpensVariant(s, t, g);
      AddsOpens(s, t, g, s1, s');
    case Existing =>
      OpensExisting(s, t, g);
      AddsOpens(s, t, g, if t.branch in s.heads then Forwarded(s1, t.branch, g) else s1, s');
    case Detached =>
      OpensDetached(s, t, g);
      AddsOpens(s, t, g, s1, s');
  }

  lemma AddsOpens(s: Repo, t: Target, g: Git, s1: Repo, s': Repo)
    requires s1.history == s.history && s1.root == s.root && (s1.remotes == s.remotes || s1 == Fetched(s, t.branch, g.fetched) || s1 == Forwarded(Fetched(s, t.branch, g.fetched), t.branch, g))
    requires s1.heads == s.heads || (t.mode == Existing && s1 == Forwarded(Fetched(s, t.branch, g.fetched), t.branch, g))
    requires Adds(s1, s')
    ensures Opens(s, t, g, s')
  {}

  lemma OpenForward(s: Repo, bases: set<Ref>, t: Target, g: Git)
    requires FetchAdvances(s, bases, t.branch, g.fetched)
    ensures Forward(s, bases, OpenNext(s, t, g))
  {
    OpenMovesForward(s, t, g);
    OpensForward(s, bases, t, g, OpenNext(s, t, g));
  }

  lemma OpensForward(s: Repo, bases: set<Ref>, t: Target, g: Git, s': Repo)
    requires Opens(s, t, g, s') && FetchAdvances(s, bases, t.branch, g.fetched)
    ensures Forward(s, bases, s')
  {
    forall r | r in bases && Value(s, r).Some?
      ensures Value(s', r).Some? && Reach(s'.history, Value(s', r).value, Value(s, r).value) {}
  }

  lemma CommitForward(s: Repo, bases: set<Ref>, key: string, done: bool)
    requires Valid(s)
    ensures Forward(s, bases, CommitNext(s, key, done))
    // The new commit is the branch's, a child of what the branch was.
    ensures key in s.trees && s.trees[key].dirty && done && s.trees[key].head.On? && s.trees[key].head.branch in s.heads ==>
              var b, s' := s.trees[key].head.branch, CommitNext(s, key, done);
              s'.heads == s.heads[b := |s.history|] && s'.history == s.history + [[s.heads[b]]]
  {
    var s' := CommitNext(s, key, done);
    if s'.history != s.history && s.trees[key].head.On? && s.trees[key].head.branch in s.heads {
      var c := |s.history|;
      assert Value(s, Local(s.trees[key].head.branch)).value < c;
      assert s'.history[c][0] == s.heads[s.trees[key].head.branch];
    }
  }

  lemma PruneForward(s: Repo, bases: set<Ref>, key: string, base: Option<Ref>, sight: Sight, o: Options, p: Pruning)
    requires !o.force && Apart(s, bases) && (base.Some? ==> base.value in bases)
    ensures Forward(s, bases, OpNext(s, PruneOp(key, base, sight, o, p)))
  {}

  lemma OpForward(s: Repo, bases: set<Ref>, op: Op)
    requires Valid(s) && Allowed(s, bases, op)
    ensures Forward(s, bases, OpNext(s, op))
  {
    match op
    case OpenOp(t, g) => OpenForward(s, bases, t, g);
    case CommitOp(key, done) => CommitForward(s, bases, key, done);
    case RemoveOp(_, _) =>
    case PruneOp(key, base, sight, o, p) => PruneForward(s, bases, key, base, sight, o, p);
    case Elsewhere(_) =>
  }

  lemma OpenValid(s: Repo, t: Target, g: Git)
    requires Valid(s) && (g.fetched.Some? ==> g.fetched.value < |s.history|)
    ensures Valid(OpenNext(s, t, g))
  {
    if Has(s, t.key) && t.mode != Detached { return; }
    var s1 := Fetched(s, t.branch, g.fetched);
    assert Valid(s1) by { assert forall r :: Value(s1, r) == Value(s, r) || Value(s1, r) == g.fetched; }
    match t.mode
    case Own =>
      CutValid(s, t.key, t.branch, g);
      AddOnValid(s, t.key, t.branch, g.add);
    case Variant =>
      CutValid(s1, t.key, Candidate(t.branch, Choose(s1, t.key, t.branch, 1)), g);
      AddOnValid(s1, t.key, Candidate(t.branch, Choose(s1, t.key, t.branch, 1)), g.add);
    case Existing => ExistingValid(s, s1, t, g);
    case Detached => DetachedValid(s1, t, g, OpenNext(s, t, g));
  }

  lemma AddOnValid(s: Repo, key: string, b: string, add: Add)
    requires Valid(s)
    ensures Valid(AddOn(s, key, b, add))
  {
    assert forall r :: Value(AddOn(s, key, b, add), r) == Value(s, r);
  }

  lemma CutValid(s: Repo, key: string, b: string, g: Git)
    requires Valid(s)
    ensures Valid(CutNew(s, key, b, g))
  {
    var s', c := CutNew(s, key, b, g), HeadCommit(s);
    assert c.Some? ==> c.value < |s.history| by { if s.root.On? { assert c == Value(s, Local(s.root.branch)); } }
    assert s'.heads == s.heads || (c.Some? && s'.heads == s.heads[b := c.value]);
    forall r | Value(s', r).Some? ensures Value(s', r).value < |s.history| {
      assert Value(s', r) == Value(s, r) || Value(s', r) == c;
    }
  }

  lemma ExistingValid(s: Repo, s1: Repo, t: Target, g: Git)
    requires Valid(s1) && !Has(s, t.key) && s1 == Fetched(s, t.branch, g.fetched)
    ensures Valid(ExistingNext(s, t.key, t.branch, g))
  {
    var s' := ExistingNext(s, t.key, t.branch, g);
    assert forall r :: Value(s', r) == Value(s1, r) || Value(s', r) == Value(s1, Remote(t.branch));
  }

  lemma DetachedValid(s1: Repo, t: Target, g: Git, s': Repo)
    requires Valid(s1) && s'.heads == s1.heads && s'.remotes == s1.remotes && s'.history == s1.history && s'.root == s1.root
    ensures Valid(s')
  {
    assert forall r :: Value(s', r) == Value(s1, r);
  }

  lemma OpValid(s: Repo, bases: set<Ref>, op: Op)
    requires Valid(s) && Allowed(s, bases, op)
    ensures Valid(OpNext(s, op))
  {
    match op
    case OpenOp(t, g) => OpenValid(s, t, g);
    case CommitOp(key, done) => CommitValid(s, key, done);
    case RemoveOp(key, r) => RemoveValid(s, RemoveNext(s, key, r));
    case PruneOp(key, base, sight, o, p) => RemoveValid(s, OpNext(s, op));
    case Elsewhere(_) =>
  }

  lemma CommitValid(s: Repo, key: string, done: bool)
    requires Valid(s)
    ensures Valid(CommitNext(s, key, done))
  {
    assert forall r :: Value(CommitNext(s, key, done), r) == Value(s, r) || Value(CommitNext(s, key, done), r) == Some(|s.history|);
  }

  lemma RemoveValid(s: Repo, s': Repo)
    requires Valid(s) && s'.history == s.history && s'.remotes == s.remotes && s'.root == s.root
    requires forall b :: b in s'.heads ==> b in s.heads && s'.heads[b] == s.heads[b]
    ensures Valid(s')
  {
    assert forall r :: Value(s', r) == Value(s, r) || Value(s', r) == None;
  }

  /** No work is lost: over any sequence of opens, commits, cleans and prunes, whatever git answers,
      a commit once reachable from a local branch stays reachable from one or from a base ref. */
  lemma {:induction false} NoWorkLost(s: Repo, bases: set<Ref>, ops: seq<Op>, s': Repo, c: nat)
    requires Valid(s) && Runs(s, bases, ops, s') && Saved(s, bases, c)
    ensures Saved(s', bases, c)
    decreases |ops|
  {
    if ops != [] {
      OpValid(s, bases, ops[0]);
      OpForward(s, bases, ops[0]);
      ForwardSaves(s, bases, OpNext(s, ops[0]), c);
      NoWorkLost(OpNext(s, ops[0]), bases, ops[1..], s', c);
    }
  }

  /** A branch goes only when the doctor prunes a run that proved it made it and, unless forced, a
      base holds all of it. */
  lemma OnlyProvenAndMergedIsDeleted(s: Repo, op: Op, b: string)
    ensures b in s.heads && b !in OpNext(s, op).heads && !op.Elsewhere? ==>
              && op.PruneOp? && Proves(s, op.key, b) && !op.sight.held && BranchSeen(s, op.key, op.sight) == Some(b)
              && (!op.o.force ==> op.base.Some? && Merged(s, b, op.base.value))
  {
    match op
    case OpenOp(t, g) => OpenMovesForward(s, t, g);
    case CommitOp(key, done) => CommitKeeps(s, key, done);
    case RemoveOp(_, _) =>
    case PruneOp(_, _, _, _, _) =>
    case Elsewhere(_) =>
  }

  lemma CommitKeeps(s: Repo, key: string, done: bool)
    ensures forall b :: b in s.heads ==> b in CommitNext(s, key, done).heads
  {}

  /** What a prune that deletes `b` leaves: every other branch, and the base but for `b`. */
  lemma PruneDeletes(s: Repo, op: Op, b: string)
    requires op.PruneOp? && !op.o.force && b in s.heads && b !in OpNext(s, op).heads
    ensures op.base.Some? && Merged(s, b, op.base.value)
    ensures var s' := OpNext(s, op); s' == s.(heads := s.heads - {b}, trees := s'.trees, proofs := s'.proofs)
  {}

  /** An unforced prune that deletes `b` keeps everything saved exactly when its base was not `b` itself,
      or another branch holds `b`. */
  lemma PruneKeepsWork(s: Repo, op: Op, b: string)
    requires op.PruneOp? && !op.o.force && b in s.heads && b !in OpNext(s, op).heads
    ensures var s' := OpNext(s, op);
            op.base.Some? &&
            ((forall c :: Saved(s, {op.base.value}, c) ==> Saved(s', {op.base.value}, c)) <==>
             (op.base.value != Local(b) || exists x :: x in s'.heads && Reach(s.history, s'.heads[x], s.heads[b])))
  {
    PruneDeletes(s, op, b);
    DeletionKeepsWork(s, OpNext(s, op), b, op.base.value);
  }

  /** The branch of origin's that a doctor means by merged: the one it was named, else origin's HEAD,
      else main. */
  function Default(branch: string, originHead: Option<string>): string {
    if branch != "" then branch else if originHead.Some? then originHead.value else "main"
  }

  /** What an unforced prune deletes is merged into origin's copy of the default branch, as README.md:184-185
      of the repository says, if and only if there is such a copy; whether a branch was named or not. */
  lemma DeletedIsMergedIntoOrigin(s: Repo, op: Op, b: string, originHead: Option<string>)
    requires op.PruneOp? && !op.o.force && b in s.heads && b !in OpNext(s, op).heads
    requires op.base == BaseRef(s, op.o.branch, originHead)
    ensures var main := Default(op.o.branch, originHead); Merged(s, b, Remote(main)) <==> main in s.remotes
  {
    PruneDeletes(s, op, b);
    OriginsCopyFirst(s, op.o.branch, originHead);
  }

  /** Origin's copy of the default branch is the base whenever it is there. */
  lemma OriginsCopyFirst(s: Repo, branch: string, originHead: Option<string>)
    ensures Default(branch, originHead) in s.remotes ==> BaseRef(s, branch, originHead) == Some(Remote(Default(branch, originHead)))
  {
    var refs, main := Candidates(branch, originHead), Default(branch, originHead);
    assert refs[0] == Remote(main);
    if main in s.remotes {
      assert Value(s, refs[0]).Some?;
      var r := BaseRef(s, branch, originHead);
      assert refs[0] in refs;
      assert IsFirst(s, refs, r.value);
    }
  }

  /** It does fail: without a copy of origin's, a branch merged into the local one alone is deleted. */
  lemma MergedOnlyHereIsDeleted() returns (s: Repo, op: Op, b: string)
    ensures op.PruneOp? && !op.o.force && op.o.branch == "main" && op.base == BaseRef(s, "main", None)
    ensures b in s.heads && b !in OpNext(s, op).heads && !Merged(s, b, Remote("main"))
  {
    b := "trilha/task-001";
    s := Repo([[]], map["main" := 0, b := 0], map[], On("main"), map["TASK-001" := Tree(On(b), false, true)], map["TASK-001" := b]);
    var refs := Candidates("main", None);
    assert refs[0] == Remote("main") && refs[1] == Local("main");
    assert Value(s, refs[0]).None? && Value(s, refs[1]).Some?;
    assert BaseRef(s, "main", None) == Some(Local("main"));
    op := PruneOp("TASK-001", Some(Local("main")), Sight(false, true, true, false, true, 0), Options(true, 0, false, "main"),
                  Pruning(true, true, true, true));
  }

  lemma DeletionKeepsWork(s: Repo, s': Repo, b: string, base: Ref)
    requires Merged(s, b, base) && s' == s.(heads := s.heads - {b}, trees := s'.trees, proofs := s'.proofs)
    ensures (forall c :: Saved(s, {base}, c) ==> Saved(s', {base}, c)) <==>
            (base != Local(b) || exists x :: x in s'.heads && Reach(s.history, s'.heads[x], s.heads[b]))
  {
    var holds := base != Local(b) || exists x :: x in s'.heads && Reach(s.history, s'.heads[x], s.heads[b]);
    if holds {
      forall c | Saved(s, {base}, c) ensures Saved(s', {base}, c) { PruneSaves(s, s', b, base, c); }
    } else {
      assert Reach(s.history, s.heads[b], s.heads[b]);
      assert Saved(s, {base}, s.heads[b]);
    }
  }

  lemma PruneSaves(s: Repo, s': Repo, b: string, base: Ref, c: nat)
    requires Merged(s, b, base) && s' == s.(heads := s.heads - {b}, trees := s'.trees, proofs := s'.proofs)
    requires base != Local(b) || exists x :: x in s'.heads && Reach(s.history, s'.heads[x], s.heads[b])
    requires Saved(s, {base}, c)
    ensures Saved(s', {base}, c)
  {
    if base != Local(b) {
      assert Value(s', base) == Value(s, base);
      if x :| x in s.heads && Reach(s.history, s.heads[x], c) {
        if x == b { ReachTransitive(s.history, Value(s, base).value, s.heads[b], c); } else { assert x in s'.heads; }
      }
    } else {
      var x :| x in s'.heads && Reach(s.history, s'.heads[x], s.heads[b]);
      assert Value(s, base) == Some(s.heads[b]);
      var y :| y in s.heads && Reach(s.history, s.heads[y], c);
      if y == b { ReachTransitive(s.history, s'.heads[x], s.heads[b], c); } else { assert y in s'.heads; }
    }
  }

  /** Uncommitted work and a wanted prune without force: whatever is removed then goes exactly when no unmerged branch
      is seen and git status does not answer there; the repository's README.md:183-186 promises a skip. */
  lemma UncommittedWorkIsPruned(s: Repo, key: string, base: Option<Ref>, sight: Sight, o: Options, p: Pruning)
    requires key in s.trees && s.trees[key].dirty && !o.force
    requires Wanted(Inspect(s, key, base, sight), o)
    ensures key !in OpNext(s, PruneOp(key, base, sight, o, p)).trees <==>
            && (p.treeGone || p.dirGone)
            && (!Has(s, key) || !sight.statusRead)
            && (BranchSeen(s, key, sight).Some? ==> base.Some? && Merged(s, BranchSeen(s, key, sight).value, base.value))
  {}

  /** So a checkout git no longer lists, whose git commands fail, is removed with what was in it. */
  lemma AnUnreadableOrphanLosesItsWork()
    returns (s: Repo, key: string, sight: Sight, o: Options, p: Pruning)
    ensures Has(s, key) && s.trees[key].dirty && !o.force
    ensures key !in OpNext(s, PruneOp(key, BaseRef(s, "main", None), sight, o, p)).trees
  {
    key := "TASK-001";
    s := Repo([[]], map["main" := 0, "trilha/task-001" := 0], map["main" := 0], On("main"),
              map[key := Tree(On("trilha/task-001"), true, true)], map[]);
    sight := Sight(false, false, false, false, true, 0);
    o := Options(true, 0, false, "main");
    p := Pruning(false, true, true, false);
  }
}
