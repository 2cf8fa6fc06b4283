/** The three secret scans: Scan (internal/redact), redactSecrets (driver) and the deployer's
    redact. All replace known secrets one after the other; the deployer's order is that of a
    map, so every statement is about all orders. */
module Redact {
  import opened Text

  const MASK := "[REDACTED]"

  // What leaves nothing behind

  /** `s`, laid over the mask at offset `o`, agrees with it wherever both have a character. */
  ghost predicate Agrees(s: string, o: int) {
    forall k :: 0 <= k < |s| && 0 <= o + k < |MASK| ==> s[k] == MASK[o + k]
  }

  /** Some placement of `s` shares at least one character with the mask and agrees with it: a
      part of `s`, or all of it, can be formed by the mask itself. */
  ghost predicate Overlaps(s: string) {
    exists o :: -|s| < o < |MASK| && Agrees(s, o)
  }

  // The code

  function RedactOne(value: string, secret: string): string {
    if secret != "" then ReplaceAll(value, secret, MASK) else value
  }

  /** One pass per secret, in order. */
  function RedactAll(value: string, secrets: seq<string>): string {
    if secrets == [] then value
    else RedactOne(RedactAll(value, secrets[..|secrets| - 1]), secrets[|secrets| - 1])
  }

  method RedactSecrets(value: string, secrets: seq<string>) returns (r: string)
    ensures r == RedactAll(value, secrets)
    ensures forall s :: s in secrets && !Overlaps(s) ==> !Contains(r, s)
  {
    r := value;
    for n := 0 to |secrets|
      invariant r == RedactAll(value, secrets[..n])
    {
      RedactNext(value, secrets[..n], secrets[n]);
      assert secrets[..n + 1] == secrets[..n] + [secrets[n]];
      if secrets[n] != "" {
        r := ReplaceAll(r, secrets[n], MASK);
      }
    }
    assert secrets[..|secrets|] == secrets;
    forall s | s in secrets && !Overlaps(s) ensures !Contains(r, s) {
      RedactLeavesNothing(value, secrets, s);
    }
  }

  /** A pattern pass replaces disjoint, non-empty intervals: the matches, left to right. */
  type Pattern = string -> seq<(nat, nat)>

  predicate ValidCuts(n: nat, cuts: seq<(nat, nat)>) {
    && (forall k :: 0 <= k < |cuts| ==> cuts[k].0 < cuts[k].1 <= n)
    && (forall k :: 0 <= k < |cuts| - 1 ==> cuts[k].1 <= cuts[k + 1].0)
  }

  /** What follows position `from`, every interval replaced by the mask. */
  function MaskCuts(t: string, from: nat, cuts: seq<(nat, nat)>): string
    requires from <= |t| && ValidCuts(|t|, cuts)
    requires cuts != [] ==> from <= cuts[0].0
    decreases |cuts|
  {
    if cuts == [] then t[from..]
    else t[from..cuts[0].0] + MASK + MaskCuts(t, cuts[0].1, cuts[1..])
  }

  /** The matches of a pattern, or none where the function is not a list of matches. */
  function Cuts(p: Pattern, t: string): (cuts: seq<(nat, nat)>)
    ensures ValidCuts(|t|, cuts)
  {
    if ValidCuts(|t|, p(t)) then p(t) else []
  }

  function MaskPattern(t: string, p: Pattern): string {
    MaskCuts(t, 0, Cuts(p, t))
  }

  function MaskPatterns(t: string, patterns: seq<Pattern>): string {
    if patterns == [] then t
    else MaskPattern(MaskPatterns(t, patterns[..|patterns| - 1]), patterns[|patterns| - 1])
  }

  /** The secrets `Scan` looks for: those of at least six bytes. */
  function Long(known: seq<string>): (r: seq<string>)
    ensures forall s :: s in r <==> s in known && |s| >= 6
  {
    if known == [] then []
    else
      var last := known[|known| - 1];
      Long(known[..|known| - 1]) + (if |last| >= 6 then [last] else [])
  }

  function ScanText(text: string, known: seq<string>, patterns: seq<Pattern>): string {
    MaskPatterns(RedactAll(text, Long(known)), patterns)
  }

  ghost predicate Absent(text: string, known: seq<string>) {
    forall s :: s in known && |s| >= 6 ==> !Contains(text, s)
  }

  /** None of the first `n` patterns matches. */
  ghost predicate NoMatch(text: string, patterns: seq<Pattern>, n: nat) {
    forall k :: 0 <= k < n && k < |patterns| ==> Cuts(patterns[k], text) == []
  }

  /** Nothing in it looks like a secret: no known one, and nothing a pattern matches. */
  ghost predicate LooksClean(text: string, known: seq<string>, patterns: seq<Pattern>) {
    Absent(text, known) && NoMatch(text, patterns, |patterns|)
  }

  lemma MaskNext(text: string, patterns: seq<Pattern>, n: nat)
    requires n < |patterns|
    ensures MaskPatterns(text, patterns[..n + 1]) == MaskPattern(MaskPatterns(text, patterns[..n]), patterns[n])
  {
    assert patterns[..n + 1][..n] == patterns[..n];
  }

  lemma NoMatchNext(text: string, patterns: seq<Pattern>, n: nat)
    requires n < |patterns|
    ensures NoMatch(text, patterns, n + 1) <==> NoMatch(text, patterns, n) && Cuts(patterns[n], text) == []
  {}

  lemma NothingMasked(text: string, p: Pattern)
    requires Cuts(p, text) == []
    ensures MaskPattern(text, p) == text
  {}

  lemma LongNext(known: seq<string>, n: nat)
    requires n < |known|
    ensures Long(known[..n + 1]) == Long(known[..n]) + (if |known[n]| >= 6 then [known[n]] else [])
  {
    assert known[..n + 1][..n] == known[..n];
  }

  lemma AbsentNext(text: string, known: seq<string>, n: nat)
    requires n < |known|
    ensures Absent(text, known[..n + 1]) <==>
            Absent(text, known[..n]) && (|known[n]| >= 6 ==> !Contains(text, known[n]))
  {
    assert known[..n + 1] == known[..n] + [known[n]];
    assert known[n] in known[..n + 1];
  }

  lemma RedactNext(value: string, secrets: seq<string>, s: string)
    ensures RedactAll(value, secrets + [s]) == RedactOne(RedactAll(value, secrets), s)
  {
    assert (secrets + [s])[..|secrets|] == secrets;
  }

  method Scan(text: string, known: seq<string>, patterns: seq<Pattern>) returns (r: string, found: bool)
    ensures r == ScanText(text, known, patterns)
    ensures found <==> !LooksClean(text, known, patterns)
    ensures !found ==> r == text
    ensures forall s :: s in known && |s| >= 6 && !Overlaps(s) ==> !Contains(r, s)
  {
    r, found := ScanKnown(text, known);
    var matched;
    r, matched := ScanPatterns(r, patterns);
    found := found || matched;
    forall s | s in known && |s| >= 6 && !Overlaps(s) ensures !Contains(r, s) {
      ScanLeavesNothing(text, known, patterns, s);
    }
  }

  /** The second of `Scan`'s two loops. */
  method ScanPatterns(text: string, patterns: seq<Pattern>) returns (r: string, found: bool)
    ensures r == MaskPatterns(text, patterns)
    ensures (found <==> !NoMatch(text, patterns, |patterns|)) && (!found ==> r == text)
  {
    r, found := text, false;
    for n := 0 to |patterns|
      invariant r == MaskPatterns(text, patterns[..n])
      invariant (found <==> !NoMatch(text, patterns, n)) && (!found ==> r == text)
    {
      MaskNext(text, patterns, n);
      NoMatchNext(text, patterns, n);
      var p := patterns[n];
      if Cuts(p, r) != [] {
        r := MaskPattern(r, p);
        found := true;
      } else {
        NothingMasked(r, p);
      }
    }
    assert patterns[..|patterns|] == patterns;
  }

  /** The first of `Scan`'s two loops. */
  method ScanKnown(text: string, known: seq<string>) returns (r: string, found: bool)
    ensures r == RedactAll(text, Long(known))
    ensures (found <==> !Absent(text, known)) && (!found ==> r == text)
  {
    r, found := text, false;
    ghost var long: seq<string> := [];
    for n := 0 to |known|
      invariant long == Long(known[..n]) && r == RedactAll(text, long)
      invariant (found <==> !Absent(text, known[..n])) && (!found ==> r == text)
    {
      var secret := known[n];
      LongNext(known, n);
      AbsentNext(text, known, n);
      if |secret| >= 6 {
        RedactNext(text, long, secret);
        long := long + [secret];
        var hit;
        r, hit := ReplaceKnown(r, secret);
        found := found || hit;
      }
    }
    assert known[..|known|] == known;
  }

  method ReplaceKnown(text: string, secret: string) returns (r: string, found: bool)
    requires secret != ""
    ensures r == RedactOne(text, secret) && (found <==> Contains(text, secret))
    ensures !found ==> r == text
  {
    found := IndexFrom(text, secret, 0) != -1;
    r := if found then ReplaceAll(text, secret, MASK) else text;
  }

  // Why

  /** An occurrence across a mask shares a character with it, so a string that does not overlap
      the mask lies wholly on one side. */
  lemma MaskSeparates(u: string, w: string, s: string)
    requires !Overlaps(s) && Contains(u + MASK + w, s)
    ensures Contains(u, s) || Contains(w, s)
  {
    var t := u + MASK + w;
    forall i ensures OccursAt(t, s, i) ==> Contains(u, s) || Contains(w, s) {
      if i + |s| <= |u| {
        assert OccursAt(t, s, i) ==> OccursAt(u, s, i);
      } else if |u| + |MASK| <= i {
        ShiftedOccurrence(u + MASK, w, s, i);
      } else if -|s| < i - |u| < |MASK| {
        assert !Agrees(s, i - |u|);
        var k :| 0 <= k < |s| && 0 <= i - |u| + k < |MASK| && s[k] != MASK[i - |u| + k];
        assert t[i + k] == MASK[i - |u| + k];
      }
    }
  }

  lemma ShiftedOccurrence(a: string, w: string, s: string, i: int)
    requires |a| <= i
    ensures OccursAt(a + w, s, i) ==> OccursAt(w, s, i - |a|)
  {
    if OccursAt(a + w, s, i) {
      forall k | 0 <= k < |s| ensures w[i - |a| + k] == s[k] { assert (a + w)[i + k] == s[k]; }
    }
  }

  lemma OccursInPrefix(t: string, hi: nat, s: string, j: int)
    requires hi <= |t|
    ensures OccursAt(t[..hi], s, j) ==> OccursAt(t, s, j)
  {
    if OccursAt(t[..hi], s, j) {
      forall k | 0 <= k < |s| ensures t[j + k] == s[k] { assert t[..hi][j + k] == s[k]; }
    }
  }

  lemma {:induction false} ReplaceRemoves(t: string, s: string)
    requires !Overlaps(s) && s != ""
    ensures !Contains(ReplaceAll(t, s, MASK), s)
    decreases |t|
  {
    var i := IndexFrom(t, s, 0);
    if i != -1 {
      var rest := t[i + |s|..];
      ReplaceRemoves(rest, s);
      assert t[..i] == t[0..i];
      forall j ensures !OccursAt(t[..i], s, j) { assert !(0 <= j < i && OccursAt(t, s, j)); OccursInPrefix(t, i, s, j); }
      if Contains(t[..i] + MASK + ReplaceAll(rest, s, MASK), s) {
        MaskSeparates(t[..i], ReplaceAll(rest, s, MASK), s);
      }
    }
  }

  /** Masking something else never makes an absent secret appear. */
  lemma {:induction false} ReplaceKeepsOut(t: string, other: string, s: string)
    requires !Overlaps(s) && !Contains(t, s) && other != ""
    ensures !Contains(ReplaceAll(t, other, MASK), s)
    decreases |t|
  {
    var i := IndexFrom(t, other, 0);
    if i != -1 {
      var rest := t[i + |other|..];
      assert rest == t[i + |other|..|t|];
      if Contains(rest, s) { ContainsInSlice(t, i + |other|, |t|, s); }
      ReplaceKeepsOut(rest, other, s);
      if Contains(t[..i] + MASK + ReplaceAll(rest, other, MASK), s) {
        MaskSeparates(t[..i], ReplaceAll(rest, other, MASK), s);
        assert t[..i] == t[0..i];
        ContainsInSlice(t, 0, i, s);
      }
    }
  }

  lemma {:induction false} MaskCutsKeepsOut(t: string, from: nat, cuts: seq<(nat, nat)>, s: string)
    requires from <= |t| && ValidCuts(|t|, cuts) && (cuts != [] ==> from <= cuts[0].0)
    requires !Overlaps(s) && !Contains(t, s)
    ensures !Contains(MaskCuts(t, from, cuts), s)
    decreases |cuts|
  {
    if cuts == [] {
      assert t[from..] == t[from..|t|];
      if Contains(t[from..], s) { ContainsInSlice(t, from, |t|, s); }
    } else {
      MaskCutsKeepsOut(t, cuts[0].1, cuts[1..], s);
      if Contains(MaskCuts(t, from, cuts), s) {
        MaskSeparates(t[from..cuts[0].0], MaskCuts(t, cuts[0].1, cuts[1..]), s);
        ContainsInSlice(t, from, cuts[0].0, s);
      }
    }
  }

  lemma NonEmpty(s: string)
    requires !Overlaps(s)
    ensures s != ""
  {
    assert !Agrees(s, if |s| == 0 then 1 else 0);
  }

  lemma {:induction false} RedactLeavesNothing(value: string, secrets: seq<string>, s: string)
    requires s in secrets && !Overlaps(s)
    ensures !Contains(RedactAll(value, secrets), s)
    decreases |secrets|
  {
    var n := |secrets| - 1;
    var before := RedactAll(value, secrets[..n]);
    NonEmpty(s);
    if s == secrets[n] {
      ReplaceRemoves(before, s);
    } else {
      RedactLeavesNothing(value, secrets[..n], s);
      if secrets[n] != "" { ReplaceKeepsOut(before, secrets[n], s); }
    }
  }

  lemma {:induction false} PatternsKeepOut(t: string, patterns: seq<Pattern>, s: string)
    requires !Overlaps(s) && !Contains(t, s)
    ensures !Contains(MaskPatterns(t, patterns), s)
    decreases |patterns|
  {
    if patterns != [] {
      var n := |patterns| - 1;
      PatternsKeepOut(t, patterns[..n], s);
      var before := MaskPatterns(t, patterns[..n]);
      MaskCutsKeepsOut(before, 0, Cuts(patterns[n], before), s);
    }
  }

  lemma ScanLeavesNothing(text: string, known: seq<string>, patterns: seq<Pattern>, s: string)
    requires s in known && |s| >= 6 && !Overlaps(s)
    ensures !Contains(ScanText(text, known, patterns), s)
  {
    RedactLeavesNothing(text, Long(known), s);
    PatternsKeepOut(RedactAll(text, Long(known)), patterns, s);
  }

  // What it keeps

  /** A pass for one secret replaces it and keeps everything around it; an empty one changes nothing. */
  lemma RedactKeepsTheRest(value: string, secrets: seq<string>, s: string) returns (around: seq<string>)
    ensures s == "" ==> RedactAll(value, secrets + [s]) == RedactAll(value, secrets)
    ensures around != [] && forall k :: 0 <= k < |around| ==> s != "" ==> !Contains(around[k], s)
    ensures s != "" ==> RedactAll(value, secrets) == Joined(around, s) && RedactAll(value, secrets + [s]) == Joined(around, "[REDACTED]")
  {
    var before := RedactAll(value, secrets);
    RedactNext(value, secrets, s);
    around := [before];
    if s != "" {
      around := Between(before, s);
      ReplaceKeepsTheRest(before, s, MASK);
    }
  }

  /** What lies before the k-th interval and after the one before it. */
  function OutsideAt(t: string, from: nat, cuts: seq<(nat, nat)>, k: nat): string
    requires k <= |cuts| && from <= |t| && ValidCuts(|t|, cuts) && (cuts != [] ==> from <= cuts[0].0)
  {
    t[if k == 0 then from else cuts[k - 1].1..if k == |cuts| then |t| else cuts[k].0]
  }

  /** What lies before, between and after the intervals. */
  function Outside(t: string, from: nat, cuts: seq<(nat, nat)>): seq<string>
    requires from <= |t| && ValidCuts(|t|, cuts) && (cuts != [] ==> from <= cuts[0].0)
  {
    seq(|cuts| + 1, k requires 0 <= k <= |cuts| => OutsideAt(t, from, cuts, k))
  }

  /** A pass for a pattern replaces its matches and keeps everything around them. */
  lemma {:induction false} MaskKeepsTheRest(t: string, from: nat, cuts: seq<(nat, nat)>)
    requires from <= |t| && ValidCuts(|t|, cuts) && (cuts != [] ==> from <= cuts[0].0)
    ensures MaskCuts(t, from, cuts) == Joined(Outside(t, from, cuts), "[REDACTED]")
    decreases |cuts|
  {
    if cuts != [] {
      MaskKeepsTheRest(t, cuts[0].1, cuts[1..]);
      OutsideFirst(t, from, cuts);
      JoinedCons(t[from..cuts[0].0], Outside(t, cuts[0].1, cuts[1..]), MASK);
    } else {
      assert t[from..] == t[from..|t|];
    }
  }

  lemma OutsideFirst(t: string, from: nat, cuts: seq<(nat, nat)>)
    requires cuts != [] && from <= |t| && ValidCuts(|t|, cuts) && from <= cuts[0].0
    ensures Outside(t, from, cuts) == [t[from..cuts[0].0]] + Outside(t, cuts[0].1, cuts[1..])
  {
    var rest := cuts[1..];
    forall k | 0 < k <= |cuts| ensures OutsideAt(t, from, cuts, k) == OutsideAt(t, cuts[0].1, rest, k - 1) {
      assert k > 1 ==> rest[k - 2] == cuts[k - 1];
      assert k < |cuts| ==> rest[k - 1] == cuts[k];
    }
    assert |Outside(t, from, cuts)| == 1 + |Outside(t, cuts[0].1, rest)|;
  }

  /** Every pattern's matches are masked in turn, in what the patterns before it left. */
  lemma ScanKeepsTheRest(text: string, patterns: seq<Pattern>, n: nat)
    requires n < |patterns|
    ensures var before := MaskPatterns(text, patterns[..n]);
            MaskPatterns(text, patterns[..n + 1]) == Joined(Outside(before, 0, Cuts(patterns[n], before)), "[REDACTED]")
  {
    MaskNext(text, patterns, n);
    var before := MaskPatterns(text, patterns[..n]);
    MaskKeepsTheRest(before, 0, Cuts(patterns[n], before));
  }

  // When it does leave something, and only then

  /** A string that overlaps the mask survives: the text puts a second secret where the mask must
      appear, next to the rest of `s`, and replacing that second secret rebuilds `s`. */
  lemma OverlapSurvives(s: string) returns (value: string, filler: string)
    requires Overlaps(s) && s != ""
    ensures |filler| > |s| + 6
    ensures Contains(RedactAll(value, [s, filler]), s)
  {
    var o :| -|s| < o < |MASK| && Agrees(s, o);
    var c := FillerFor(Left(s, o), Right(s, o));
    filler := Repeat(c, |s| + 7);
    value := Left(s, o) + filler + Right(s, o);
    OverlapAt(s, o, c, filler);
  }

  /** What of `s` lies before the mask, and after it. */
  function Left(s: string, o: int): string
    requires -|s| < o < |MASK|
  {
    if o < 0 then s[..-o] else ""
  }

  function Right(s: string, o: int): string
    requires -|s| < o < |MASK|
  {
    if o + |s| > |MASK| then s[|MASK| - o..] else ""
  }

  lemma OverlapAt(s: string, o: int, c: char, filler: string)
    requires s != "" && -|s| < o < |MASK| && Agrees(s, o) && c in {'x', 'y', 'z'} && filler == Repeat(c, |s| + 7)
    requires Left(s, o) != "" ==> Left(s, o)[|Left(s, o)| - 1] != c
    requires Right(s, o) != "" ==> Right(s, o)[0] != c
    ensures Contains(RedactAll(Left(s, o) + filler + Right(s, o), [s, filler]), s)
  {
    var u, v := Left(s, o), Right(s, o);
    NotInFilled(s, o, u, v, c);
    OnlyFillerMasked(s, u, v, c);
    Aligned(s, o, u, v);
    Occurs(u + MASK + v, s, if o < 0 then 0 else o);
  }

  lemma OnlyFillerMasked(s: string, u: string, v: string, c: char)
    requires s != "" && |u| <= |s| && |v| <= |s| && (u != "" ==> u[|u| - 1] != c) && (v != "" ==> v[0] != c)
    requires !Contains(u + Repeat(c, |s| + 7) + v, s)
    ensures RedactAll(u + Repeat(c, |s| + 7) + v, [s, Repeat(c, |s| + 7)]) == u + MASK + v
  {
    FillerMasked(u, v, c, |s| + 7);
    SecondOnly(u + Repeat(c, |s| + 7) + v, s, Repeat(c, |s| + 7));
  }

  lemma Occurs(t: string, s: string, i: int)
    requires OccursAt(t, s, i)
    ensures Contains(t, s)
  {}

  /** A filler character that is not in the mask and borders neither part. */
  lemma FillerFor(u: string, v: string) returns (c: char)
    ensures c in {'x', 'y', 'z'} && (u != "" ==> u[|u| - 1] != c) && (v != "" ==> v[0] != c)
  {
    c := 'x';
    if (u != "" && u[|u| - 1] == c) || (v != "" && v[0] == c) { c := 'y'; }
    if (u != "" && u[|u| - 1] == c) || (v != "" && v[0] == c) { c := 'z'; }
  }

  /** A secret that is not there leaves the text to the next one. */
  lemma SecondOnly(value: string, s: string, other: string)
    requires s != "" && other != "" && !Contains(value, s)
    ensures RedactAll(value, [s, other]) == ReplaceAll(value, other, MASK)
  {
    assert [s, other][..1] == [s] && [s][..0] == [];
    assert RedactAll(value, [s]) == RedactOne(RedactAll(value, []), s) == RedactOne(value, s);
    assert IndexFrom(value, s, 0) == -1;
    assert RedactOne(value, s) == value;
  }

  lemma Aligned(s: string, o: int, u: string, v: string)
    requires -|s| < o < |MASK| && Agrees(s, o)
    requires u == if o < 0 then s[..-o] else ""
    requires v == if o + |s| > |MASK| then s[|MASK| - o..] else ""
    ensures OccursAt(u + MASK + v, s, if o < 0 then 0 else o)
  {
    var t := u + MASK + v;
    forall k | 0 <= k < |s| ensures t[(if o < 0 then 0 else o) + k] == s[k] {
      if 0 <= o + k < |MASK| { assert s[k] == MASK[o + k]; }
    }
  }

  lemma NotInFilled(s: string, o: int, u: string, v: string, c: char)
    requires s != "" && -|s| < o < |MASK| && Agrees(s, o) && c in {'x', 'y', 'z'}
    requires u == if o < 0 then s[..-o] else ""
    requires v == if o + |s| > |MASK| then s[|MASK| - o..] else ""
    ensures !Contains(u + Repeat(c, |s| + 7) + v, s)
  {
    var t := u + Repeat(c, |s| + 7) + v;
    // The first character of `s` that lies on the mask always falls on a filler character.
    var k := |u|;
    assert s[k] == MASK[o + k];
    forall i ensures !OccursAt(t, s, i) {
      if 0 <= i <= |t| - |s| { assert t[i + k] == c && s[k] != c; }
    }
  }

  lemma FillerMasked(u: string, v: string, c: char, m: nat)
    requires m > |u| && m > |v| && m > 0
    requires u != "" ==> u[|u| - 1] != c
    requires v != "" ==> v[0] != c
    ensures ReplaceAll(u + Repeat(c, m) + v, Repeat(c, m), MASK) == u + MASK + v
  {
    var f := Repeat(c, m);
    var t := u + f + v;
    FirstFiller(u, v, c, m);
    assert t[|u| + m..] == v && t[..|u|] == u;
  }

  lemma FirstFiller(u: string, v: string, c: char, m: nat)
    requires m > |u| && u != "" ==> u[|u| - 1] != c
    requires m > |u| && m > 0
    ensures IndexFrom(u + Repeat(c, m) + v, Repeat(c, m), 0) == |u|
  {
    var f := Repeat(c, m);
    var t := u + f + v;
    forall j | 0 <= j < |u| ensures !OccursAt(t, f, j) {
      var k := |u| - 1 - j;
      assert t[j + k] == u[|u| - 1] && f[k] == c;
    }
    forall k | 0 <= k < m ensures t[|u| + k] == f[k] {}
    assert OccursAt(t, f, |u|);
  }

  ghost predicate RedactNeverLeaves(s: string) {
    forall value, secrets :: s in secrets ==> !Contains(RedactAll(value, secrets), s)
  }

  ghost predicate ScanNeverLeaves(s: string) {
    forall text, known, patterns :: s in known ==> !Contains(ScanText(text, known, patterns), s)
  }

  lemma Leaves(s: string, value: string, secrets: seq<string>)
    requires s in secrets
    ensures Contains(RedactAll(value, secrets), s) ==> !RedactNeverLeaves(s)
    ensures Contains(ScanText(value, secrets, []), s) ==> !ScanNeverLeaves(s)
  {}

  /** The exact condition, for all texts, all lists of secrets and all orders: a secret never
      survives if and only if it does not overlap the mask. */
  lemma RedactExactly(s: string)
    ensures RedactNeverLeaves(s) <==> !Overlaps(s)
  {
    if !Overlaps(s) {
      forall value, secrets | s in secrets ensures !Contains(RedactAll(value, secrets), s) {
        RedactLeavesNothing(value, secrets, s);
      }
    } else if s == "" {
      assert OccursAt(RedactAll("", [s]), s, 0);
      Leaves(s, "", [s]);
    } else {
      var value, filler := OverlapSurvives(s);
      Leaves(s, value, [s, filler]);
    }
  }

  /** The same for `Scan`, which also ignores secrets shorter than six bytes. */
  lemma ScanExactly(s: string)
    ensures ScanNeverLeaves(s) <==> |s| >= 6 && !Overlaps(s)
  {
    if |s| >= 6 && !Overlaps(s) {
      forall text, known, patterns | s in known ensures !Contains(ScanText(text, known, patterns), s) {
        ScanLeavesNothing(text, known, patterns, s);
      }
    } else if |s| < 6 {
      assert [s][..0] == [] && Long([s]) == [];
      assert OccursAt(s, s, 0);
      Leaves(s, s, [s]);
    } else {
      var text, filler := OverlapSurvives(s);
      assert [s, filler][..1] == [s] && [s][..0] == [];
      assert Long([s, filler]) == [s, filler];
      Leaves(s, text, [s, filler]);
    }
  }

  /** Secrets as people choose them do not overlap the mask: no bracket, and not a part of its
      word. */
  lemma PlainSecretsDoNotOverlap(s: string)
    requires s != "" && '[' !in s && ']' !in s && !Contains(MASK, s)
    ensures !Overlaps(s)
  {
    forall o | -|s| < o < |MASK| ensures !Agrees(s, o) {
      if o < 0 {
        assert s[-o] != MASK[o + -o];
      } else if o + |s| > |MASK| {
        assert s[|MASK| - 1 - o] != MASK[|MASK| - 1];
      } else {
        assert !OccursAt(MASK, s, o);
      }
    }
  }
}
