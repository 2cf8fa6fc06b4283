/** Which branch and which directory a run gets (runner/work.go, worktree/target.go, worktree.go): the
    names, what can be read back of them, and that runs of different variants never share a branch. */
module Variants {
  import opened Wrappers
  import opened Text
  import opened Branches

  predicate Digit(ch: char) { '0' <= ch <= '9' }

  predicate Digits(s: string) { forall i :: 0 <= i < |s| ==> Digit(s[i]) }

  /** TASK- and at least three digits. */
  predicate IsTask(id: string) {
    |id| >= 8 && id[..5] == "TASK-" && Digits(id[5..])
  }

  function BranchOf(id: string): string { "trilha/" + Lower(id) }

  function VariantBranch(id: string, v: nat): string { BranchOf(id) + "-v" + Decimal(v) }

  function VariantKey(id: string, v: nat): string { id + "-v" + Decimal(v) }

  /** How many digits `s` starts with. */
  function Span(s: string): (n: nat)
    ensures n <= |s| && Digits(s[..n]) && (n < |s| ==> !Digit(s[n]))
  {
    if s == "" || !Digit(s[0]) then 0
    else
      assert forall i :: 0 <= i < Span(s[1..]) ==> s[..1 + Span(s[1..])][i + 1] == s[1..][..Span(s[1..])][i];
      1 + Span(s[1..])
  }

  /** The task a run directory belongs to: its name up to the second dash, when that is a task's. */
  function TaskOf(key: string): string {
    if |key| < 8 || key[..5] != "TASK-" then ""
    else
      var n := Span(key[5..]);
      if n < 3 || (5 + n < |key| && key[5 + n] != '-') then "" else key[..5 + n]
  }

  // A number, then something that is not one

  /** What may follow a number and not be taken for part of it. */
  predicate Ends(s: string) { s == "" || !Digit(s[0]) }

  lemma {:induction false} SpanOf(a: string, x: string)
    requires Digits(a) && Ends(x)
    ensures Span(a + x) == |a|
  {
    if a == "" {
      assert a + x == x;
    } else {
      assert (a + x)[0] == a[0] && (a + x)[1..] == a[1..] + x;
      SpanOf(a[1..], x);
    }
  }

  lemma SplitNumber(a: string, x: string, b: string, y: string)
    requires Digits(a) && Digits(b) && Ends(x) && Ends(y) && a + x == b + y
    ensures a == b && x == y
  {
    SpanOf(a, x);
    SpanOf(b, y);
    assert a == (a + x)[..|a|] == (b + y)[..|b|] == b;
    assert x == (a + x)[|a|..] == (b + y)[|b|..] == y;
  }

  lemma {:induction false} DecimalInjective(m: nat, n: nat)
    requires Decimal(m) == Decimal(n)
    ensures m == n
  {
    var a, b := if m < 10 then "" else Decimal(m / 10), if n < 10 then "" else Decimal(n / 10);
    assert Decimal(m)[..|Decimal(m)| - 1] == a && Decimal(n)[..|Decimal(n)| - 1] == b;
    assert Decimal(m)[|Decimal(m)| - 1] as int == '0' as int + m % 10;
    assert Decimal(n)[|Decimal(n)| - 1] as int == '0' as int + n % 10;
    if m >= 10 && n >= 10 { DecimalInjective(m / 10, n / 10); }
  }

  /** Text after a common start. */
  lemma SameStart(p: string, x: string, y: string)
    requires p + x == p + y
    ensures x == y
  {
    assert x == (p + x)[|p|..] == (p + y)[|p|..] == y;
  }

  /** What follows the task's digits in the n-th candidate of variant `v`. */
  function Rest(v: nat, n: nat): string {
    "-v" + (Decimal(v) + Suffix(n))
  }

  function Suffix(n: nat): string { if n > 1 then "-" + Decimal(n) else "" }

  lemma LowerTask(id: string)
    requires IsTask(id)
    ensures Lower(id) == "task-" + id[5..]
  {
    assert id == "TASK-" + id[5..];
    var low := Lower(id);
    assert forall i :: 0 <= i < 5 ==> low[i] == "task-"[i] by { assert forall i :: 0 <= i < 5 ==> id[i] == "TASK-"[i]; }
    forall i | 5 <= i < |id| ensures low[i] == id[i] { assert Digit(id[5..][i - 5]); }
  }

  lemma CandidateParts(id: string, v: nat, n: nat)
    requires IsTask(id)
    ensures Candidate(VariantBranch(id, v), n) == ("trilha/" + "task-") + (id[5..] + Rest(v, n))
  {
    LowerTask(id);
    var d, dec := id[5..], Decimal(v);
    if n > 1 {
      assert (((("trilha/" + ("task-" + d)) + "-v") + dec) + "-") + Decimal(n) == ("trilha/" + "task-") + (d + ("-v" + (dec + ("-" + Decimal(n)))));
    } else {
      assert ((("trilha/" + ("task-" + d)) + "-v") + dec) == ("trilha/" + "task-") + (d + ("-v" + (dec + "")));
    }
  }

  lemma RestParts(v1: nat, n1: nat, v2: nat, n2: nat)
    requires n1 >= 1 && n2 >= 1 && Rest(v1, n1) == Rest(v2, n2)
    ensures v1 == v2 && n1 == n2
  {
    SameStart("-v", Decimal(v1) + Suffix(n1), Decimal(v2) + Suffix(n2));
    SplitNumber(Decimal(v1), Suffix(n1), Decimal(v2), Suffix(n2));
    DecimalInjective(v1, v2);
    if n1 > 1 && n2 > 1 {
      SameStart("-", Decimal(n1), Decimal(n2));
      DecimalInjective(n1, n2);
    }
  }

  /** Different tasks, variants or suffixes never have the same candidate. */
  lemma CandidatesAreDistinct(id1: string, v1: nat, n1: nat, id2: string, v2: nat, n2: nat)
    requires IsTask(id1) && IsTask(id2) && n1 >= 1 && n2 >= 1
    requires Candidate(VariantBranch(id1, v1), n1) == Candidate(VariantBranch(id2, v2), n2)
    ensures id1 == id2 && v1 == v2 && n1 == n2
  {
    CandidateParts(id1, v1, n1);
    CandidateParts(id2, v2, n2);
    SameStart("trilha/" + "task-", id1[5..] + Rest(v1, n1), id2[5..] + Rest(v2, n2));
    SplitNumber(id1[5..], Rest(v1, n1), id2[5..], Rest(v2, n2));
    RestParts(v1, n1, v2, n2);
    assert id1 == id1[..5] + id1[5..] && id2 == id2[..5] + id2[5..];
  }

  /** Nor does a variant share a branch with a task's own run. */
  lemma CandidatesAreNotOwn(id1: string, v: nat, n: nat, id2: string)
    requires IsTask(id1) && IsTask(id2) && n >= 1
    ensures Candidate(VariantBranch(id1, v), n) != BranchOf(id2)
  {
    CandidateParts(id1, v, n);
    OwnParts(id2);
    NumberIsNotLonger(id1[5..], Rest(v, n), id2[5..]);
    StillDiffers("trilha/" + "task-", id1[5..] + Rest(v, n), id2[5..]);
  }

  lemma OwnParts(id: string)
    requires IsTask(id)
    ensures BranchOf(id) == ("trilha/" + "task-") + id[5..]
  {
    LowerTask(id);
    Assoc("trilha/", "task-", id[5..]);
  }

  lemma Assoc(a: string, b: string, c: string)
    ensures a + (b + c) == (a + b) + c
  {}

  /** A number with something after it is no number. */
  lemma NumberIsNotLonger(d: string, rest: string, e: string)
    requires Digits(d) && Digits(e) && rest != "" && Ends(rest)
    ensures d + rest != e
  {
    assert (d + rest)[|d|] == rest[0] && !Digit(rest[0]);
  }

  lemma StillDiffers(p: string, x: string, y: string)
    requires x != y
    ensures p + x != p + y
  {
    assert (p + x)[|p|..] == x && (p + y)[|p|..] == y;
  }

  /** A run directory's task is read back from its name, whatever follows the dash. */
  lemma TaskOfKey(id: string, rest: string)
    requires IsTask(id) && (rest == "" || rest[0] == '-')
    ensures TaskOf(id + rest) == id
  {
    var key := id + rest;
    assert key[..5] == id[..5] && key[5..] == id[5..] + rest;
    var n := Span(key[5..]);
    SplitNumber(id[5..], rest, key[5..][..n], key[5..][n..]);
    assert key[5..] == key[5..][..n] + key[5..][n..];
    assert key[..|id|] == id;
  }

  // Where a run works

  datatype RunKind = Implement | Review(fix: bool) | Hunt

  /** What a claim asks of the runner; a run id that is not valid names no directory. */
  datatype Work = Work(kind: RunKind, variant: nat, comments: bool, runId: Option<string>)

  function KindName(k: RunKind): string {
    match k case Implement => "implement" case Review(_) => "review" case Hunt => "hunt"
  }

  predicate ReadOnly(w: Work) { w.kind == Hunt || w.kind == Review(false) }

  /** Runner.target. */
  function TargetOf(id: string, w: Work): Target {
    var branch := if w.variant > 0 then VariantBranch(id, w.variant) else BranchOf(id);
    var key := if w.variant > 0 then VariantKey(id, w.variant) else id;
    if ReadOnly(w) then
      Target(id + ("-" + KindName(w.kind) + (if w.runId.Some? then "-" + w.runId.value else "")), branch, Detached)
    else if w.kind.Review? || w.comments then Target(key, branch, Existing)
    else Target(key, branch, if w.variant > 0 then Variant else Own)
  }

  /** How each run gets its branch: read-only runs none of their own, in a directory of their own; reviews
      that fix and repairs the one that is there; variants and implementations theirs. */
  lemma TargetsAre(id: string, w: Work)
    ensures var t := TargetOf(id, w);
            && t.branch == (if w.variant > 0 then BranchOf(id) + "-v" + Decimal(w.variant) else BranchOf(id))
            && (t.mode == Detached <==> w.kind == Hunt || w.kind == Review(false))
            && (t.mode == Existing <==> w.kind == Review(true) || (w.kind == Implement && w.comments))
            && (t.mode == Variant <==> w.kind == Implement && !w.comments && w.variant > 0)
            && (t.mode == Own <==> w.kind == Implement && !w.comments && w.variant == 0)
            && (t.mode != Detached ==> t.key == if w.variant > 0 then id + "-v" + Decimal(w.variant) else id)
  {}

  /** The branch of a task in its own words. */
  lemma BranchIs(id: string)
    requires IsTask(id)
    ensures BranchOf(id) == "trilha/" + ("task-" + id[5..])
  {
    LowerTask(id);
  }

  /** Whatever the run, the doctor reads its task back from the directory. */
  lemma TargetNamesItsTask(id: string, w: Work)
    requires IsTask(id)
    ensures TaskOf(TargetOf(id, w).key) == id
  {
    if ReadOnly(w) {
      TaskOfKey(id, "-" + KindName(w.kind) + (if w.runId.Some? then "-" + w.runId.value else ""));
    } else if w.variant > 0 {
      assert VariantKey(id, w.variant) == id + ("-v" + Decimal(w.variant));
      TaskOfKey(id, "-v" + Decimal(w.variant));
    } else {
      assert id + "" == id;
      TaskOfKey(id, "");
    }
  }

  // Runs of different variants

  /** `b` is a candidate of this variant. */
  predicate CandidateOf(id: string, v: nat, b: string) {
    exists n: nat :: 1 <= n <= MAX_VARIANT_SUFFIX && b == Candidate(VariantBranch(id, v), n)
  }

  /** The proofs in variants' directories name candidates of theirs. */
  ghost predicate OwnProofs(s: Repo) {
    forall id, v: nat :: IsTask(id) && VariantKey(id, v) in s.proofs ==> CandidateOf(id, v, s.proofs[VariantKey(id, v)])
  }

  lemma KeysAreDistinct(id1: string, v1: nat, id2: string, v2: nat)
    requires IsTask(id1) && IsTask(id2) && VariantKey(id1, v1) == VariantKey(id2, v2)
    ensures id1 == id2 && v1 == v2
  {
    var r1, r2 := "-v" + Decimal(v1), "-v" + Decimal(v2);
    assert VariantKey(id1, v1) == id1 + r1 && VariantKey(id2, v2) == id2 + r2;
    TaskOfKey(id1, r1);
    TaskOfKey(id2, r2);
    SameStart(id1, r1, r2);
    SameStart("-v", Decimal(v1), Decimal(v2));
    DecimalInjective(v1, v2);
  }

  lemma KeyIsNoTask(id: string, v: nat, own: string)
    requires IsTask(id) && IsTask(own)
    ensures VariantKey(id, v) != own
  {
    assert VariantKey(id, v) == id + ("-v" + Decimal(v));
    assert own + "" == own;
    TaskOfKey(id, "-v" + Decimal(v));
    TaskOfKey(own, "");
    assert |VariantKey(id, v)| > |id|;
  }

  /** The proofs after an Open: at most `key`'s is another one, and then it names `b`. */
  ghost predicate Proven(s: Repo, key: string, b: string, s': Repo) {
    && (forall k :: k in s'.proofs && k != key ==> k in s.proofs && s'.proofs[k] == s.proofs[k])
    && (key in s'.proofs ==> s'.proofs[key] == b || (key in s.proofs && s'.proofs[key] == s.proofs[key]))
  }

  lemma CutProves(s: Repo, key: string, b: string, g: Git)
    ensures Proven(s, key, b, CutNew(s, key, b, g)) && Proven(s, key, b, AddOn(s, key, b, g.add))
  {}

  lemma VariantProves(s: Repo, key: string, b: string, g: Git) returns (n: nat)
    ensures 1 <= n && Proven(s, key, Candidate(b, n), VariantNext(s, key, b, g))
    ensures n <= MAX_VARIANT_SUFFIX || VariantNext(s, key, b, g).proofs == s.proofs
  {
    var s1 := Fetched(s, b, g.fetched);
    n := Choose(s1, key, b, 1);
    var s' := VariantNext(s, key, b, g);
    CutProves(s1, key, Candidate(b, n), g);
    assert Has(s, key) || n > MAX_VARIANT_SUFFIX ==> s'.proofs == s.proofs;
    assert s1.proofs == s.proofs;
  }

  lemma OwnProves(s: Repo, key: string, b: string, g: Git)
    ensures Proven(s, key, b, OwnNext(s, key, b, g))
  {
    CutProves(s, key, b, g);
  }

  lemma ExistingProves(s: Repo, key: string, b: string, g: Git)
    ensures ExistingNext(s, key, b, g).proofs == s.proofs
  {
    var s1 := Fetched(s, b, g.fetched);
    ForwardProves(s1, b, g);
    AddProves(Forwarded(s1, b, g), key, b, None, g.add);
    AddProves(s1, key, b, Value(s1, Remote(b)), g.add);
  }

  lemma ForwardProves(s: Repo, b: string, g: Git)
    ensures Forwarded(s, b, g).proofs == s.proofs
  {}

  lemma AddProves(s: Repo, key: string, b: string, c: Option<nat>, add: Add)
    ensures AddOn(s, key, b, add).proofs == s.proofs && AddNew(s, key, b, c, add).proofs == s.proofs
  {}

  lemma DetachedProves(s: Repo, key: string, b: string, g: Git)
    ensures DetachedNext(s, key, b, g).proofs == s.proofs
  {}

  /** Every open of any run of any task keeps it so. */
  lemma OpenKeepsProofs(s: Repo, id: string, w: Work, g: Git)
    requires IsTask(id) && OwnProofs(s)
    ensures OwnProofs(OpenNext(s, TargetOf(id, w), g))
  {
    var t := TargetOf(id, w);
    if t.mode == Variant {
      var n := VariantProves(s, t.key, t.branch, g);
      VariantKeeps(s, id, w.variant, n, OpenNext(s, t, g));
    } else if t.mode == Own {
      OwnProves(s, id, t.branch, g);
      OwnKeeps(s, id, t.branch, OpenNext(s, t, g));
    } else if t.mode == Existing {
      ExistingProves(s, t.key, t.branch, g);
    } else {
      DetachedProves(s, t.key, t.branch, g);
    }
  }

  lemma VariantKeeps(s: Repo, id: string, v: nat, n: nat, s': Repo)
    requires IsTask(id) && OwnProofs(s) && 1 <= n && Proven(s, VariantKey(id, v), Candidate(VariantBranch(id, v), n), s')
    requires n <= MAX_VARIANT_SUFFIX || s'.proofs == s.proofs
    ensures OwnProofs(s')
  {
    forall x, u: nat | IsTask(x) && VariantKey(x, u) in s'.proofs ensures CandidateOf(x, u, s'.proofs[VariantKey(x, u)]) {
      if VariantKey(x, u) == VariantKey(id, v) { KeysAreDistinct(x, u, id, v); }
    }
  }

  lemma OwnKeeps(s: Repo, id: string, b: string, s': Repo)
    requires IsTask(id) && OwnProofs(s) && Proven(s, id, b, s')
    ensures OwnProofs(s')
  {
    forall x, u: nat | IsTask(x) && VariantKey(x, u) in s'.proofs ensures CandidateOf(x, u, s'.proofs[VariantKey(x, u)]) {
      KeyIsNoTask(x, u, id);
    }
  }

  /** The runner opens what TargetOf says, and nobody else writes proofs that are not so. */
  ghost predicate Ours(op: Op) {
    match op
    case OpenOp(t, _) => exists id, w :: IsTask(id) && t == TargetOf(id, w)
    case Elsewhere(after) => OwnProofs(after)
    case _ => true
  }

  lemma OpKeepsProofs(s: Repo, op: Op)
    requires OwnProofs(s) && Ours(op)
    ensures OwnProofs(OpNext(s, op))
  {
    match op
    case OpenOp(t, g) =>
      var id, w :| IsTask(id) && t == TargetOf(id, w);
      OpenKeepsProofs(s, id, w, g);
    case CommitOp(key, done) => assert CommitNext(s, key, done).proofs == s.proofs;
    case RemoveOp(key, r) => FewerProofs(s, RemoveNext(s, key, r));
    case PruneOp(key, base, sight, o, p) => FewerProofs(s, OpNext(s, op));
    case Elsewhere(_) =>
  }

  lemma FewerProofs(s: Repo, s': Repo)
    requires OwnProofs(s) && forall k :: k in s'.proofs ==> k in s.proofs && s'.proofs[k] == s.proofs[k]
    ensures OwnProofs(s')
  {}

  /** Over any sequence of the runner's steps. */
  lemma {:induction false} ProofsStayOwn(s: Repo, bases: set<Ref>, ops: seq<Op>, s': Repo)
    requires OwnProofs(s) && Runs(s, bases, ops, s') && forall i :: 0 <= i < |ops| ==> Ours(ops[i])
    ensures OwnProofs(s')
    decreases |ops|
  {
    if ops != [] {
      OpKeepsProofs(s, ops[0]);
      ProofsStayOwn(OpNext(s, ops[0]), bases, ops[1..], s');
    }
  }

  /** The branch the run of a task's variant works on. */
  function Works(s: Repo, id: string, v: nat, g: Git): Option<string> {
    WorksOn(s, VariantKey(id, v), VariantBranch(id, v), g)
  }

  /** Whatever each of them found when it started, two runs of different variants, of one task or two,
      work on different branches, and on none of a task's own. */
  lemma VariantsNeverShare(s1: Repo, id1: string, v1: nat, g1: Git, s2: Repo, id2: string, v2: nat, g2: Git)
    requires IsTask(id1) && IsTask(id2) && (id1 != id2 || v1 != v2)
    requires OwnProofs(s1) && OwnProofs(s2) && Works(s1, id1, v1, g1).Some? && Works(s2, id2, v2, g2).Some?
    ensures Works(s1, id1, v1, g1) != Works(s2, id2, v2, g2)
    ensures forall own :: IsTask(own) ==> Works(s1, id1, v1, g1) != Some(BranchOf(own))
  {
    var n1 := WorksOnCandidate(s1, id1, v1, g1);
    var n2 := WorksOnCandidate(s2, id2, v2, g2);
    if Works(s1, id1, v1, g1) == Works(s2, id2, v2, g2) { CandidatesAreDistinct(id1, v1, n1, id2, v2, n2); }
    forall own | IsTask(own) ensures Works(s1, id1, v1, g1) != Some(BranchOf(own)) { CandidatesAreNotOwn(id1, v1, n1, own); }
  }

  lemma WorksOnCandidate(s: Repo, id: string, v: nat, g: Git) returns (n: nat)
    requires IsTask(id) && OwnProofs(s) && Works(s, id, v, g).Some?
    ensures 1 <= n <= MAX_VARIANT_SUFFIX && Works(s, id, v, g) == Some(Candidate(VariantBranch(id, v), n))
  {
    var key := VariantKey(id, v);
    if !Has(s, key) {
      n := Choose(Fetched(s, VariantBranch(id, v), g.fetched), key, VariantBranch(id, v), 1);
    } else if key in s.proofs && s.proofs[key] != "" {
      n :| 1 <= n <= MAX_VARIANT_SUFFIX && s.proofs[key] == Candidate(VariantBranch(id, v), n);
    } else {
      n := 1;
    }
  }
}
