/** The worktree manager at work (worktree/target.go, worktree.go, doctor.go): the methods that run git
    command by command on the repository, against what Branches says a run of them does. */
module Worktrees {
  import opened Wrappers
  import opened Text
  import opened Branches

  datatype Action = Kept | Gone | Skipped | Failed

  datatype Line = Line(e: Entry, action: Action)

  class Manager {
    var repo: Repo

    constructor (repo: Repo)
      ensures this.repo == repo
    {
      this.repo := repo;
    }

    method OpenOwn(key: string, b: string, g: Git) returns (ok: bool)
      modifies this
      ensures repo == OwnNext(old(repo), key, b, g)
      ensures ok && !Has(old(repo), key) ==> Has(repo, key) && repo.trees[key].head == On(b) && b in repo.heads
      ensures ok <==> Has(old(repo), key) ||
                      (g.add.Added? && if b in old(repo).heads then !CheckedOut(old(repo), b) else HeadCommit(old(repo)).Some? && g.proved)
      ensures Has(old(repo), key) ==> repo == old(repo)
      // A branch that was there is neither moved nor claimed.
      ensures b in old(repo).heads ==> repo.heads == old(repo).heads && repo.proofs == old(repo).proofs
      // A branch this run made is at HEAD, with its proof.
      ensures ok && !Has(old(repo), key) && b !in old(repo).heads ==> Proves(repo, key, b) && Some(repo.heads[b]) == HeadCommit(old(repo))
    {
      if Has(repo, key) { return true; }
      if b in repo.heads {
        ok := g.add.Added? && !CheckedOut(repo, b);
        repo := AddOn(repo, key, b, g.add);
        return;
      }
      ok := Cut(key, b, g);
    }

    /** git worktree add -b from HEAD, then the proof. */
    method Cut(key: string, b: string, g: Git) returns (ok: bool)
      requires b !in repo.heads
      modifies this
      ensures repo == CutNew(old(repo), key, b, g)
      ensures ok ==> Has(repo, key) && repo.trees[key].head == On(b) && Proves(repo, key, b)
      ensures ok ==> b in repo.heads && Some(repo.heads[b]) == HeadCommit(old(repo))
      ensures ok <==> g.add.Added? && HeadCommit(old(repo)).Some? && g.proved
      ensures HeadCommit(old(repo)).Some? && g.add.Added? ==> Has(repo, key)
      ensures HeadCommit(old(repo)).None? || !g.add.Added? ==> repo.trees == old(repo).trees
    {
      var head := HeadCommit(repo);
      repo := AddNew(repo, key, b, head, g.add);
      if !g.add.Added? || head.None? { return false; }
      repo := Prove(repo, key, b, g.proved);
      ok := g.proved;
    }

    /** The least candidate this run may take; none is moved when there is none. */
    method OpenVariant(key: string, b: string, g: Git) returns (branch: string, ok: bool)
      modifies this
      ensures repo == VariantNext(old(repo), key, b, g)
      ensures ok ==> WorksOn(old(repo), key, b, g) == Some(branch)
      ensures Has(old(repo), key) ==> ok && repo == old(repo)
      ensures ok && !Has(old(repo), key) ==> Has(repo, key) && repo.trees[key].head == On(branch)
      ensures ok && !Has(old(repo), key) ==>
                exists n :: 1 <= n <= MAX_VARIANT_SUFFIX && Least(Fetched(old(repo), b, g.fetched), key, b, n) && branch == Candidate(b, n)
      ensures ok <==> Has(old(repo), key) || (Has(repo, key) && (branch in old(repo).heads || g.proved))
      // What was made is proved to be this run's; what was adopted was already.
      ensures ok && !Has(old(repo), key) ==> Proves(repo, key, branch) && (branch in old(repo).heads ==> Proves(old(repo), key, branch))
      ensures !Has(old(repo), key) && (forall n :: 1 <= n <= MAX_VARIANT_SUFFIX ==> !Takes(Fetched(old(repo), b, g.fetched), key, Candidate(b, n)))
              ==> !ok && repo == Fetched(old(repo), b, g.fetched)
    {
      branch := b;
      if Has(repo, key) {
        if key in repo.proofs && repo.proofs[key] != "" { branch := repo.proofs[key]; }
        return branch, true;
      }
      repo := Fetched(repo, b, g.fetched);
      ghost var s1 := repo;
      var n := 1;
      while n <= MAX_VARIANT_SUFFIX
        invariant 1 <= n <= MAX_VARIANT_SUFFIX + 1 && repo == s1
        invariant forall k :: 1 <= k < n ==> !Takes(s1, key, Candidate(b, k))
        invariant Choose(s1, key, b, 1) == Choose(s1, key, b, n)
      {
        var candidate := Candidate(b, n);
        var local, remote := candidate in repo.heads, candidate in repo.remotes;
        if !local && !remote {
          assert Least(s1, key, b, n);
          ok := Cut(key, candidate, g);
          return candidate, ok;
        }
        if local && Proves(repo, key, candidate) {
          assert Least(s1, key, b, n);
          ok := g.add.Added? && !CheckedOut(repo, candidate);
          repo := AddOn(repo, key, candidate, g.add);
          return candidate, ok;
        }
        n := n + 1;
      }
      ok := false;
    }

    /** A branch here, moved on to origin's copy when that is ahead; or origin's. */
    method OpenExisting(key: string, b: string, g: Git) returns (ok: bool)
      modifies this
      ensures repo == ExistingNext(old(repo), key, b, g)
      ensures ok && !Has(old(repo), key) ==> Has(repo, key) && repo.trees[key].head == On(b) && b in repo.heads
      ensures b in old(repo).heads ==> b in repo.heads && Reach(repo.history, repo.heads[b], old(repo).heads[b])
      // There is a run when there is a checkout, or git adds one on the branch here or on origin's.
      ensures ok <==> Has(old(repo), key) ||
                      (g.add.Added? && if b in old(repo).heads then !CheckedOut(old(repo), b) else g.fetched.Some? || b in old(repo).remotes)
      // Never cut from HEAD: without the branch here or on origin there is no run.
      ensures !Has(old(repo), key) && b !in old(repo).heads && b !in Fetched(old(repo), b, g.fetched).remotes
              ==> !ok && repo == Fetched(old(repo), b, g.fetched)
      ensures repo.proofs == old(repo).proofs
    {
      if Has(repo, key) { return true; }
      repo := Fetched(repo, b, g.fetched);
      var local, remote := b in repo.heads, b in repo.remotes;
      if local {
        if remote && Reach(repo.history, repo.remotes[b], repo.heads[b]) { repo := Forwarded(repo, b, g); }
        ok := g.add.Added? && !CheckedOut(repo, b);
        repo := AddOn(repo, key, b, g.add);
      } else if remote {
        ok := g.add.Added?;
        repo := AddNew(repo, key, b, Some(repo.remotes[b]), g.add);
      } else {
        ok := false;
      }
    }

    /** A checkout of the newer of the two copies, on no branch. */
    method OpenDetached(key: string, b: string, g: Git) returns (head: nat, ok: bool)
      modifies this
      ensures repo == DetachedNext(old(repo), key, b, g)
      ensures ok ==> Has(repo, key) && repo.trees[key] == Tree(At(head), false, true)
      ensures ok ==> Tip(Fetched(old(repo), b, g.fetched), b) == Some(head)
      // Origin's copy when it is ahead or the only one, else the local branch.
      ensures ok && b in old(repo).heads ==>
                head == if b in repo.remotes && Reach(repo.history, repo.remotes[b], old(repo).heads[b]) then repo.remotes[b] else old(repo).heads[b]
      ensures ok && b !in old(repo).heads ==> b in repo.remotes && head == repo.remotes[b]
      ensures ok <==> (b in old(repo).heads || b in repo.remotes) && (Has(old(repo), key) ==> g.removed) && g.add.Added?
      ensures repo.remotes == if g.fetched.Some? then old(repo).remotes[b := g.fetched.value] else old(repo).remotes
      // Never behind the local branch, and one of the two copies.
      ensures ok && b in old(repo).heads ==> Reach(repo.history, head, old(repo).heads[b])
      ensures ok ==> Some(head) in {Value(repo, Local(b)), Value(repo, Remote(b))}
      ensures repo.heads == old(repo).heads && repo.proofs == old(repo).proofs
    {
      repo := Fetched(repo, b, g.fetched);
      var local, remote := b in repo.heads, b in repo.remotes;
      head, ok := 0, false;
      if local && remote && Reach(repo.history, repo.remotes[b], repo.heads[b]) {
        head := repo.remotes[b];
      } else if local {
        head := repo.heads[b];
      } else if remote {
        head := repo.remotes[b];
      } else {
        return;
      }
      if Has(repo, key) {
        if !g.removed { return; }
        repo := repo.(trees := repo.trees - {key});
      }
      if !g.add.Added? { return; }
      repo := WithTree(repo, key, At(head));
      ok := true;
    }

    method Open(t: Target, g: Git) returns (branch: string, ok: bool)
      modifies this
      ensures repo == OpenNext(old(repo), t, g)
      ensures Opens(old(repo), t, g, repo)
    {
      OpenMovesForward(repo, t, g);
      branch := t.branch;
      match t.mode
      case Variant => branch, ok := OpenVariant(t.key, t.branch, g);
      case Existing => ok := OpenExisting(t.key, t.branch, g);
      case Detached =>
        var _, made := OpenDetached(t.key, t.branch, g);
        ok := made;
      case Own => ok := OpenOwn(t.key, t.branch, g);
    }

    /** Everything in the worktree, as one commit on what it has checked out; none when it is clean. */
    method Commit(key: string, done: bool) returns (sha: Option<nat>, ok: bool)
      requires key in repo.trees
      modifies this
      ensures repo == CommitNext(old(repo), key, done)
      ensures sha.Some? <==> old(repo).trees[key].dirty && done
      ensures ok <==> done || !old(repo).trees[key].dirty
      ensures sha.None? ==> repo == old(repo)
      ensures sha.Some? ==> |repo.history| == sha.value + 1 && repo.history[..sha.value] == old(repo).history && !repo.trees[key].dirty
      ensures sha.Some? && old(repo).trees[key].head.On? ==>
                var b := old(repo).trees[key].head.branch;
                Value(repo, Local(b)) == sha && repo.history[sha.value] == if b in old(repo).heads then [old(repo).heads[b]] else []
      ensures sha.Some? && old(repo).trees[key].head.At? ==>
                repo.trees[key].head == At(sha.value) && repo.heads == old(repo).heads && repo.history[sha.value] == [old(repo).trees[key].head.commit]
    {
      var tree := repo.trees[key];
      if !tree.dirty { return None, true; }
      if !done { return None, false; }
      sha, ok := Some(|repo.history|), true;
      match tree.head {
        case On(b) =>
          var parents := if b in repo.heads then [repo.heads[b]] else [];
          repo := repo.(history := repo.history + [parents], heads := repo.heads[b := sha.value]);
        case At(past) =>
          repo := repo.(history := repo.history + [[past]]);
          tree := tree.(head := At(sha.value));
      }
      repo := repo.(trees := repo.trees[key := tree.(dirty := false)]);
    }

    /** The worktree goes, the branch stays. */
    method Remove(key: string, r: Removal) returns (ok: bool)
      modifies this
      ensures repo == RemoveNext(old(repo), key, r)
      ensures repo.heads == old(repo).heads && repo.history == old(repo).history && (ok ==> key !in repo.trees)
      ensures OthersStay(old(repo), key, repo) && (ok <==> !r.RemovalFails?) && (!r.NotATree? ==> repo.proofs == old(repo).proofs)
      ensures !ok ==> repo == old(repo)
    {
      match r
      case Removed => repo := repo.(trees := repo.trees - {key}); ok := true;
      case NotATree => repo := repo.(trees := repo.trees - {key}, proofs := repo.proofs - {key}); ok := true;
      case RemovalFails => ok := false;
    }

    // The doctor

    /** Says why not, or removes the worktree, its directory, and then a branch the runner proved. */
    method Prune(e: Entry, o: Options, p: Pruning) returns (action: Action)
      modifies this
      ensures repo == PruneNext(old(repo), e, o, p)
      ensures action != Kept && (action == Skipped <==> !o.force && ((e.branch.Some? && e.merged != Some(true)) || e.dirty))
      ensures action == Skipped ==> repo == old(repo)
      ensures action != Skipped ==> (action == Gone <==> p.dirGone)
      ensures action == Gone ==> e.key !in repo.trees && e.key !in repo.proofs
      ensures forall b :: b in old(repo).heads ==>
                (b !in repo.heads <==> action == Gone && e.proven && e.branch == Some(b) && p.branchGone && OutNowhereElse(old(repo), e.key, b))
      ensures forall b :: b in repo.heads ==> b in old(repo).heads && repo.heads[b] == old(repo).heads[b]
    {
      var unmerged := e.branch.Some? && (e.merged.None? || !e.merged.value);
      if unmerged && !o.force { return Skipped; }
      if e.dirty && !o.force { return Skipped; }
      if !p.dirGone {
        if p.treeGone { repo := repo.(trees := repo.trees - {e.key}); }
        if p.proofGone { repo := repo.(proofs := repo.proofs - {e.key}); }
        return Failed;
      }
      repo := repo.(trees := repo.trees - {e.key}, proofs := repo.proofs - {e.key});
      action := Gone;
      if e.branch.Some? { NobodyElse(old(repo), repo, e.key, e.branch.value); }
      if e.branch.Some? && e.proven && p.branchGone && !CheckedOut(repo, e.branch.value) {
        repo := repo.(heads := repo.heads - {e.branch.value});
      }
    }

    /** One run directory: classified, then pruned if the options want it. */
    method DoctorOne(key: string, base: Option<Ref>, sight: Sight, o: Options, p: Pruning) returns (line: Line)
      modifies this
      ensures repo == OpNext(old(repo), PruneOp(key, base, sight, o, p))
      ensures Explains(line, key, TreeAt(old(repo), key), ProofAt(old(repo), key), sight, o)
      ensures line.e.branch.Some? && base.Some? ==> line.e.merged == Some(Merged(old(repo), line.e.branch.value, base.value))
      ensures line.e.branch.None? || base.None? ==> line.e.merged == None
      ensures line.action in {Kept, Skipped} ==> repo == old(repo)
      ensures line.action == Gone ==> key !in repo.trees && key !in repo.proofs
      ensures forall x :: x != key ==> SameDir(old(repo), x, repo)
      // A branch goes exactly with its own proven directory, when git agrees and nobody else has it out.
      ensures forall b :: b in old(repo).heads ==>
                (b !in repo.heads <==> line.action == Gone && line.e.proven && line.e.branch == Some(b) && p.branchGone
                                       && OutNowhereElse(old(repo), key, b))
      ensures forall b :: b in repo.heads ==> b in old(repo).heads && repo.heads[b] == old(repo).heads[b]
      ensures forall b :: b in old(repo).heads && b !in repo.heads ==> Deletes(line, b, o)
    {
      var e := Inspect(repo, key, base, sight);
      var action := Kept;
      if Wanted(e, o) { action := Prune(e, o, p); }
      line := Line(e, action);
    }

    /** Every run directory in turn. */
    method Doctor(o: Options, originHead: Option<string>, keys: seq<string>, sights: string -> Sight, prunings: string -> Pruning,
                  ghost bases: set<Ref>)
      returns (report: seq<Line>)
      modifies this
      ensures |report| == |keys|
      // Each line says what its directory was, and why it was kept, skipped or pruned.
      ensures DistinctKeys(keys) ==> forall i :: 0 <= i < |keys| ==>
                Explains(report[i], keys[i], TreeAt(old(repo), keys[i]), ProofAt(old(repo), keys[i]), sights(keys[i]), o)
      // Merged or not is measured against the first base that is there.
      ensures Measures(report, old(repo), repo, BaseRef(old(repo), o.branch, originHead))
      // Without a flag it only reports.
      ensures !o.pruneOrphans && o.olderThan <= 0 ==> repo == old(repo)
      // A live, kept or skipped directory is as it was.
      ensures DistinctKeys(keys) ==>
                forall i :: 0 <= i < |keys| && report[i].action in {Kept, Skipped} ==> Stays(old(repo), keys[i], repo)
      // Orphans alone: a checkout that git lists, of a task that is known, stays with its proof and its branch.
      ensures DistinctKeys(keys) && o.olderThan <= 0 ==>
                forall i :: 0 <= i < |keys| && IsCheckout(old(repo), keys[i], sights(keys[i])) ==> Stays(old(repo), keys[i], repo)
      // What is gone is gone with its proof.
      ensures DistinctKeys(keys) ==>
                forall i :: 0 <= i < |keys| && report[i].action == Gone ==> keys[i] !in repo.trees && keys[i] !in repo.proofs
      // A branch goes only with a directory that proves the runner made it and, unless forced, merged.
      ensures forall b :: b in old(repo).heads && b !in repo.heads ==> exists i :: 0 <= i < |report| && Deletes(report[i], b, o)
      // No work is lost.
      ensures Careful(old(repo), o, originHead, bases) ==> Saves(old(repo), bases, repo)
    {
      var base := BaseRef(repo, o.branch, originHead);
      report := [];
      for n := 0 to |keys|
        invariant |report| == n
        invariant Shrunk(old(repo), repo) && Measures(report, old(repo), repo, base)
        invariant SoFar(old(repo), repo, keys, report, sights, o)
        invariant !o.pruneOrphans && o.olderThan <= 0 ==> repo == old(repo)
        invariant Accounted(old(repo), repo, report, o)
        invariant Careful(old(repo), o, originHead, bases) ==> Apart(repo, bases) && Saves(old(repo), bases, repo)
      {
        ghost var before := repo;
        var line := DoctorOne(keys[n], base, sights(keys[n]), o, prunings(keys[n]));
        if Careful(old(repo), o, originHead, bases) {
          PruneSafe(before, bases, keys[n], base, sights(keys[n]), o, prunings(keys[n]));
        }
        PruneShrinks(before, PruneOp(keys[n], base, sights(keys[n]), o, prunings(keys[n])));
        MeasuresNext(report, line, old(repo), before, repo, base);
        SoFarNext(old(repo), before, repo, keys, report, line, sights, o);
        Reported(old(repo), before, repo, report, line, o);
        report := report + [line];
      }
    }
  }

  /** Nobody else's worktree or proof is touched, and no commit is made. */
  ghost predicate OthersStay(s: Repo, key: string, s': Repo) {
    s'.history == s.history && s'.root == s.root && forall x :: x != key ==> SameDir(s, x, s')
  }

  /** Free here and in origin's refs, those of `b` just fetched; or here and named by the run's own proof. */
  ghost predicate MayTake(s: Repo, key: string, b: string, g: Git, candidate: string) {
    if candidate in s.heads then key in s.proofs && s.proofs[key] == candidate
    else candidate !in s.remotes && !(candidate == b && g.fetched.Some?)
  }

  // What the modes come to

  /** However it is opened, nobody else's worktree or proof is touched, no commit is made, and of the local
      branches at most the run's own moves. */
  lemma OpenTouchesItsOwn(s: Repo, t: Target, g: Git)
    ensures OthersStay(s, t.key, OpenNext(s, t, g))
  {
    match t.mode
    case Own => OwnTouches(s, t.key, t.branch, g);
    case Variant => VariantTouches(s, t.key, t.branch, g);
    case Existing => ExistingTouches(s, t.key, t.branch, g);
    case Detached => DetachedTouches(s, t.key, t.branch, g);
  }

  lemma AddTouches(s: Repo, key: string, b: string, g: Git)
    ensures OthersStay(s, key, AddOn(s, key, b, g.add)) && OthersStay(s, key, CutNew(s, key, b, g))
  {
    AddNewTouches(s, key, b, HeadCommit(s), g.add);
    ProveTouches(s, AddNew(s, key, b, HeadCommit(s), g.add), key, b, g.proved);
  }

  lemma AddNewTouches(s: Repo, key: string, b: string, c: Option<nat>, add: Add)
    ensures OthersStay(s, key, AddNew(s, key, b, c, add))
  {}

  lemma ProveTouches(s: Repo, s1: Repo, key: string, b: string, written: bool)
    requires OthersStay(s, key, s1)
    ensures OthersStay(s, key, Prove(s1, key, b, written))
  {
    forall x | x != key ensures SameDir(s, x, Prove(s1, key, b, written)) { assert SameDir(s, x, s1); }
  }

  lemma OwnTouches(s: Repo, key: string, b: string, g: Git)
    ensures OthersStay(s, key, OwnNext(s, key, b, g))
  {
    AddTouches(s, key, b, g);
  }

  lemma VariantTouches(s: Repo, key: string, b: string, g: Git)
    ensures OthersStay(s, key, VariantNext(s, key, b, g))
  {
    var s1 := Fetched(s, b, g.fetched);
    AddTouches(s1, key, Candidate(b, Choose(s1, key, b, 1)), g);
    Fetching(s, s1, key, VariantNext(s, key, b, g));
  }

  lemma Fetching(s: Repo, s1: Repo, key: string, s': Repo)
    requires s1 == s.(heads := s1.heads, remotes := s1.remotes)
    ensures OthersStay(s1, key, s') ==> OthersStay(s, key, s')
  {
    forall x | x != key && SameDir(s1, x, s') ensures SameDir(s, x, s') {}
    assert OthersStay(s1, key, s') ==> forall x :: x != key ==> SameDir(s1, x, s');
  }

  lemma ExistingTouches(s: Repo, key: string, b: string, g: Git)
    ensures OthersStay(s, key, ExistingNext(s, key, b, g))
  {
    if Has(s, key) { return; }
    var s1 := Fetched(s, b, g.fetched);
    if b in s1.heads {
      var s2 := Forwarded(s1, b, g);
      AddTouches(s2, key, b, g);
      Fetching(s, s2, key, ExistingNext(s, key, b, g));
    }
  }

  lemma DetachedTouches(s: Repo, key: string, b: string, g: Git)
    ensures OthersStay(s, key, DetachedNext(s, key, b, g))
  {}

  /** A variant's run works on the first of b, b-2, ..., b-20 that it may take, and there is none to work on
      exactly when it may take none of them. */
  lemma VariantTakesTheFirst(s: Repo, key: string, b: string, g: Git)
    requires !Has(s, key)
    ensures WorksOn(s, key, b, g).None? <==> forall n: nat :: 1 <= n <= 20 ==> !MayTake(s, key, b, g, Candidate(b, n))
    ensures WorksOn(s, key, b, g).Some? ==>
              exists n: nat :: 1 <= n <= 20 && WorksOn(s, key, b, g) == Some(Candidate(b, n)) && MayTake(s, key, b, g, Candidate(b, n))
                               && forall k: nat :: 1 <= k < n ==> !MayTake(s, key, b, g, Candidate(b, k))
  {
    forall n: nat ensures MayTake(s, key, b, g, Candidate(b, n)) <==> Takes(Fetched(s, b, g.fetched), key, Candidate(b, n)) {
      TakesWhatItMay(s, key, b, g, Candidate(b, n));
    }
    var n := Choose(Fetched(s, b, g.fetched), key, b, 1);
  }

  /** The candidates' names. */
  lemma CandidatesAre(b: string, n: nat)
    ensures Candidate(b, 1) == b && (n > 1 ==> Candidate(b, n) == b + "-" + Decimal(n))
  {}

  /** With a candidate and a git that adds it, the run gets a checkout on it: cut from HEAD when it is new,
      where it was when it is the run's own. */
  lemma VariantGetsIt(s: Repo, key: string, b: string, g: Git, c: string)
    requires !Has(s, key) && WorksOn(s, key, b, g) == Some(c) && g.add.Added?
    ensures var s' := VariantNext(s, key, b, g);
            && (c !in s.heads && HeadCommit(s).Some? ==> Has(s', key) && s'.trees[key].head == On(c) && c in s'.heads && Some(s'.heads[c]) == HeadCommit(s))
            && (c in s.heads && !CheckedOut(s, c) ==> Has(s', key) && s'.trees[key].head == On(c) && s'.heads == s.heads)
  {
    var s1 := Fetched(s, b, g.fetched);
    assert s1.heads == s.heads && s1.trees == s.trees && s1.root == s.root;
    assert HeadCommit(s1) == HeadCommit(s) && (CheckedOut(s1, c) <==> CheckedOut(s, c));
  }

  /** A run on an existing branch takes origin's copy when that is ahead and git moves the branch, or when
      there is no other; else the branch is where it was. No other branch moves. */
  lemma ExistingTakesTheNewer(s: Repo, key: string, b: string, g: Git)
    requires !Has(s, key)
    ensures var s' := ExistingNext(s, key, b, g);
            && s'.remotes == (if g.fetched.Some? then s.remotes[b := g.fetched.value] else s.remotes)
            && (b in s.heads ==> b in s'.heads)
            && (b in s.heads ==>
                 s'.heads[b] == if b in s'.remotes && Reach(s.history, s'.remotes[b], s.heads[b]) && g.moved && !CheckedOut(s, b)
                                then s'.remotes[b] else s.heads[b])
            && (b !in s.heads && b in s'.remotes && !g.add.Refused? ==> b in s'.heads && s'.heads[b] == s'.remotes[b])
  {
    var s1 := Fetched(s, b, g.fetched);
    assert s1.heads == s.heads && s1.trees == s.trees && s1.root == s.root && s1.history == s.history;
    if b in s.heads { ExistingHere(s, s1, key, b, g); }
  }

  lemma ExistingHere(s: Repo, s1: Repo, key: string, b: string, g: Git)
    requires s1 == s.(remotes := s1.remotes) && b in s.heads
    ensures var s' := AddOn(Forwarded(s1, b, g), key, b, g.add);
            && s'.remotes == s1.remotes && b in s'.heads
            && s'.heads[b] == if b in s1.remotes && Reach(s.history, s1.remotes[b], s.heads[b]) && g.moved && !CheckedOut(s, b)
                              then s1.remotes[b] else s.heads[b]
  {
    assert CheckedOut(s1, b) <==> CheckedOut(s, b);
  }

  lemma TakesWhatItMay(s: Repo, key: string, b: string, g: Git, candidate: string)
    ensures MayTake(s, key, b, g, candidate) <==> Takes(Fetched(s, b, g.fetched), key, candidate)
  {}

  /** `n` is the first candidate the run may take. */
  ghost predicate Least(s: Repo, key: string, b: string, n: nat) {
    Takes(s, key, Candidate(b, n)) && forall k :: 1 <= k < n ==> !Takes(s, key, Candidate(b, k))
  }

  /** A checkout that git lists, of a task that is known. */
  ghost predicate IsCheckout(s: Repo, key: string, sight: Sight) {
    key in s.trees && s.trees[key].checkout && sight.listed && sight.taskKnown
  }

  function TreeAt(s: Repo, key: string): Option<Tree> { if key in s.trees then Some(s.trees[key]) else None }

  function ProofAt(s: Repo, key: string): Option<string> { if key in s.proofs then Some(s.proofs[key]) else None }

  /** An entry tells what its directory is: its class, the branch seen in it, whether its proof names that
      branch, and the uncommitted changes seen. */
  ghost predicate Describes(e: Entry, key: string, tree: Option<Tree>, proof: Option<string>, sight: Sight) {
    && e.key == key && e.age == sight.age
    && (e.kind == Live <==> sight.held)
    && (e.kind == MetadataOnly <==> !sight.held && tree.None?)
    && (e.kind == Orphaned <==> !sight.held && tree.Some? && (!tree.value.checkout || !sight.listed || !sight.taskKnown))
    && (e.kind == FinishedKept <==> !sight.held && tree.Some? && tree.value.checkout && sight.listed && sight.taskKnown)
    && e.branch == (if tree.Some? && tree.value.checkout && sight.branchRead && tree.value.head.On? then Some(tree.value.head.branch) else None)
    && (e.proven <==> e.branch.Some? && proof == e.branch)
    && (e.dirty <==> tree.Some? && tree.value.checkout && sight.statusRead && tree.value.dirty)
  }

  /** A line of the report: what its directory is; kept exactly when it is live or no flag wants it, and
      skipped only for work a force would remove. */
  ghost predicate Explains(line: Line, key: string, tree: Option<Tree>, proof: Option<string>, sight: Sight, o: Options) {
    var e := line.e;
    && Describes(e, key, tree, proof, sight)
    && (line.action == Kept <==> sight.held || !((o.pruneOrphans && e.kind == Orphaned) || (o.olderThan > 0 && e.age > o.olderThan)))
    && (line.action == Skipped ==> !o.force && ((e.branch.Some? && e.merged != Some(true)) || e.dirty))
    && (line.action in {Gone, Failed} && !o.force ==> !e.dirty && (e.branch.Some? ==> e.merged == Some(true)))
  }

  /** Commits and origin's refs are as they were, and the branches that are left too. */
  ghost predicate Shrunk(s: Repo, s': Repo) {
    && s'.history == s.history && s'.remotes == s.remotes
    && forall b :: b in s'.heads ==> b in s.heads && s'.heads[b] == s.heads[b]
  }

  lemma PruneShrinks(s: Repo, op: Op)
    requires op.PruneOp?
    ensures Shrunk(s, OpNext(s, op))
  {}

  /** A line says merged only of a branch that was merged into the base, and unmerged only of one that was
      not, unless it or the base has gone meanwhile. */
  ghost predicate Measured(e: Entry, s: Repo, s': Repo, base: Option<Ref>) {
    && (e.merged.Some? <==> e.branch.Some? && base.Some?)
    && (e.merged == Some(true) ==> e.branch.Some? && base.Some? && Merged(s, e.branch.value, base.value))
    && (e.merged == Some(false) && e.branch.Some? && base.Some? && e.branch.value in s'.heads && Value(s', base.value).Some? ==>
          !Merged(s, e.branch.value, base.value))
  }

  ghost predicate Measures(report: seq<Line>, s: Repo, s': Repo, base: Option<Ref>) {
    forall i :: 0 <= i < |report| ==> Measured(report[i].e, s, s', base)
  }

  lemma MeasuresNext(report: seq<Line>, line: Line, s: Repo, s1: Repo, s2: Repo, base: Option<Ref>)
    requires Measures(report, s, s1, base) && Shrunk(s, s1) && Shrunk(s1, s2)
    requires line.e.merged == if line.e.branch.Some? && base.Some? then Some(Merged(s1, line.e.branch.value, base.value)) else None
    ensures Measures(report + [line], s, s2, base) && Shrunk(s, s2)
  {
    forall i | 0 <= i < |report| ensures Measured(report[i].e, s, s2, base) { assert Measured(report[i].e, s, s1, base); }
    assert Measured(line.e, s, s2, base);
  }

  /** Neither the main checkout nor another run's has the branch out. */
  ghost predicate OutNowhereElse(s: Repo, key: string, b: string) {
    s.root != On(b) && forall x :: x in s.trees && x != key ==> s.trees[x].head != On(b)
  }

  lemma NobodyElse(s: Repo, s': Repo, key: string, b: string)
    requires s'.root == s.root && s'.trees == s.trees - {key}
    ensures CheckedOut(s', b) <==> !OutNowhereElse(s, key, b)
  {
    if x :| x in s.trees && x != key && s.trees[x].head == On(b) { assert x in s'.trees && s'.trees[x].head == On(b); }
  }

  /** A directory keeps its worktree and its proof, and the branch that is out in it. */
  ghost predicate Stays(s: Repo, key: string, s': Repo) {
    SameDir(s, key, s') && (key in s.trees && s.trees[key].head.On? && s.trees[key].head.branch in s.heads ==> s.trees[key].head.branch in s'.heads)
  }

  predicate DistinctKeys(keys: seq<string>) {
    forall i, j :: 0 <= i < j < |keys| ==> keys[i] != keys[j]
  }

  /** The worktree and the proof of a directory are the same. */
  ghost predicate SameDir(s: Repo, key: string, s': Repo) {
    && (key in s.trees <==> key in s'.trees) && (key in s.trees ==> s'.trees[key] == s.trees[key])
    && (key in s.proofs <==> key in s'.proofs) && (key in s.proofs ==> s'.proofs[key] == s.proofs[key])
  }

  /** Every branch that has gone since `s` has a line that says why. */
  ghost predicate Accounted(s: Repo, s': Repo, report: seq<Line>, o: Options) {
    forall b :: b in s.heads && b !in s'.heads ==> exists i :: 0 <= i < |report| && Deletes(report[i], b, o)
  }

  lemma Reported(s: Repo, s1: Repo, s2: Repo, report: seq<Line>, line: Line, o: Options)
    requires Accounted(s, s1, report, o)
    requires forall b :: b in s1.heads && b !in s2.heads ==> Deletes(line, b, o)
    ensures Accounted(s, s2, report + [line], o)
  {
    var all := report + [line];
    forall b | b in s.heads && b !in s2.heads ensures exists i :: 0 <= i < |all| && Deletes(all[i], b, o) {
      if b in s1.heads {
        assert Deletes(all[|report|], b, o);
      } else {
        var i :| 0 <= i < |report| && Deletes(report[i], b, o);
        assert Deletes(all[i], b, o);
      }
    }
  }

  /** What a line says of its directory holds, of what it was and of what is left of it. */
  ghost predicate Holds(s: Repo, s': Repo, key: string, line: Line, sight: Sight, o: Options) {
    && Explains(line, key, TreeAt(s, key), ProofAt(s, key), sight, o)
    && (line.action in {Kept, Skipped} ==> Stays(s, key, s'))
    && (line.action == Gone ==> key !in s'.trees && key !in s'.proofs)
  }

  /** The lines so far hold, and the directories to come are as they were. */
  ghost predicate SoFar(s: Repo, s': Repo, keys: seq<string>, report: seq<Line>, sights: string -> Sight, o: Options) {
    |report| <= |keys| && (DistinctKeys(keys) ==> forall i :: 0 <= i < |keys| ==>
      if i < |report| then Holds(s, s', keys[i], report[i], sights(keys[i]), o) else Stays(s, keys[i], s'))
  }

  lemma SoFarNext(s: Repo, s1: Repo, s2: Repo, keys: seq<string>, report: seq<Line>, line: Line, sights: string -> Sight, o: Options)
    requires |report| < |keys| && SoFar(s, s1, keys, report, sights, o)
    requires var key := keys[|report|];
             && Explains(line, key, TreeAt(s1, key), ProofAt(s1, key), sights(key), o)
             && (line.action in {Kept, Skipped} ==> s2 == s1) && (line.action == Gone ==> key !in s2.trees && key !in s2.proofs)
             && (forall x :: x != key ==> SameDir(s1, x, s2))
             && forall b :: b in s1.heads && b !in s2.heads ==> OutNowhereElse(s1, key, b)
    ensures SoFar(s, s2, keys, report + [line], sights, o)
  {
    var n := |report|;
    forall i | DistinctKeys(keys) && 0 <= i < |keys|
      ensures if i < n + 1 then Holds(s, s2, keys[i], (report + [line])[i], sights(keys[i]), o) else Stays(s, keys[i], s2)
    {
      assert i != n ==> keys[i] != keys[n];
      if i != n && Stays(s, keys[i], s1) { StaysOn(s, s1, s2, keys[n], keys[i]); }
      if i < n { assert Holds(s, s1, keys[i], report[i], sights(keys[i]), o) && SameDir(s1, keys[i], s2); }
    }
  }

  lemma StaysOn(s: Repo, s1: Repo, s2: Repo, pruned: string, key: string)
    requires key != pruned && Stays(s, key, s1) && SameDir(s1, key, s2)
    requires forall b :: b in s1.heads && b !in s2.heads ==> OutNowhereElse(s1, pruned, b)
    ensures Stays(s, key, s2)
  {}

  ghost predicate Deletes(line: Line, b: string, o: Options) {
    line.action == Gone && line.e.proven && line.e.branch == Some(b) && (o.force || line.e.merged == Some(true))
  }

  /** Not forced, and measured against a base that no run made. */
  ghost predicate Careful(s: Repo, o: Options, originHead: Option<string>, bases: set<Ref>) {
    !o.force && Apart(s, bases) && var base := BaseRef(s, o.branch, originHead); base.Some? ==> base.value in bases
  }

  ghost predicate Saves(s: Repo, bases: set<Ref>, s': Repo) {
    forall c :: Saved(s, bases, c) ==> Saved(s', bases, c)
  }

  lemma PruneSafe(s: Repo, bases: set<Ref>, key: string, base: Option<Ref>, sight: Sight, o: Options, p: Pruning)
    requires !o.force && Apart(s, bases) && (base.Some? ==> base.value in bases)
    ensures var s' := OpNext(s, PruneOp(key, base, sight, o, p)); Apart(s', bases) && Saves(s, bases, s')
  {
    var s' := OpNext(s, PruneOp(key, base, sight, o, p));
    PruneForward(s, bases, key, base, sight, o, p);
    forall c | Saved(s, bases, c) ensures Saved(s', bases, c) { ForwardSaves(s, bases, s', c); }
    PruneApart(s, bases, key, base, sight, o, p);
  }

  lemma PruneApart(s: Repo, bases: set<Ref>, key: string, base: Option<Ref>, sight: Sight, o: Options, p: Pruning)
    requires Apart(s, bases)
    ensures Apart(OpNext(s, PruneOp(key, base, sight, o, p)), bases)
  {}
}
