/** Occurrences of one string in another, and the library replacement built on them.
    A `char` stands for one byte of the original's strings. */
module Text {
  predicate OccursAt(t: string, s: string, i: int) {
    0 <= i <= |t| - |s| && forall k :: 0 <= k < |s| ==> t[i + k] == s[k]
  }

  ghost predicate Contains(t: string, s: string) {
    exists i :: OccursAt(t, s, i)
  }

  /** The least position at or after `i` where `s` occurs in `t`, or -1 (strings.Index). */
  function IndexFrom(t: string, s: string, i: nat): (r: int)
    requires i <= |t|
    ensures r == -1 ==> forall j :: i <= j ==> !OccursAt(t, s, j)
    ensures r != -1 ==> i <= r && OccursAt(t, s, r) && forall j :: i <= j < r ==> !OccursAt(t, s, j)
    decreases |t| - i
  {
    if OccursAt(t, s, i) then i
    else if i == |t| then -1
    else IndexFrom(t, s, i + 1)
  }

  /** Leftmost, non-overlapping replacement (strings.ReplaceAll with a non-empty pattern). */
  function ReplaceAll(t: string, s: string, mask: string): string
    requires s != ""
    decreases |t|
  {
    var i := IndexFrom(t, s, 0);
    if i == -1 then t else t[..i] + mask + ReplaceAll(t[i + |s|..], s, mask)
  }

  lemma ContainsInSlice(t: string, lo: nat, hi: nat, s: string)
    requires lo <= hi <= |t| && Contains(t[lo..hi], s)
    ensures Contains(t, s)
  {
    var i :| OccursAt(t[lo..hi], s, i);
    forall k | 0 <= k < |s| ensures t[lo + i + k] == s[k] { assert t[lo..hi][i + k] == s[k]; }
    assert OccursAt(t, s, lo + i);
  }

  /** A string repeated from one character. */
  function Repeat(c: char, n: nat): (r: string)
    ensures |r| == n && forall k :: 0 <= k < n ==> r[k] == c
  {
    seq(n, _ => c)
  }

  /** `%d` of a natural number. */
  function Decimal(n: nat): (r: string)
    ensures r != "" && forall k :: 0 <= k < |r| ==> '0' <= r[k] <= '9'
  {
    (if n < 10 then "" else Decimal(n / 10)) + [('0' as int + n % 10) as char]
  }

  predicate IsSpace(c: char) { c == ' ' || '\t' <= c <= '\r' }

  /** strings.TrimSpace, on ASCII. */
  function TrimSpace(s: string): (r: string)
    ensures r != "" ==> !IsSpace(r[0]) && !IsSpace(r[|r| - 1])
  {
    if s != "" && IsSpace(s[0]) then TrimSpace(s[1..])
    else if s != "" && IsSpace(s[|s| - 1]) then TrimSpace(s[..|s| - 1])
    else s
  }

  /** strings.ToLower, on ASCII. */
  function Lower(s: string): string {
    seq(|s|, i requires 0 <= i < |s| => if 'A' <= s[i] <= 'Z' then ((s[i] as int) + 32) as char else s[i])
  }

  // What these functions mean

  lemma SpacesAre(c: char)
    ensures IsSpace(c) <==> c as int in {9, 10, 11, 12, 13, 32}
  {}

  /** `r` is what is left of `s` between `i` and `j`: white space around it, and none at its ends. */
  ghost predicate Trims(s: string, r: string, i: nat, j: nat) {
    && i <= j <= |s| && r == s[i..j]
    && (forall k :: 0 <= k < |s| && (k < i || j <= k) ==> IsSpace(s[k]))
    && (i < j ==> !IsSpace(s[i]) && !IsSpace(s[j - 1]))
  }

  lemma TrimsMore(first: string, t: string, last: string, r: string, i: nat, j: nat)
    requires Trims(t, r, i, j) && (forall k :: 0 <= k < |first| ==> IsSpace(first[k])) && forall k :: 0 <= k < |last| ==> IsSpace(last[k])
    ensures Trims(first + t + last, r, |first| + i, |first| + j)
  {
    var s := first + t + last;
    assert s[|first| + i..|first| + j] == t[i..j];
    forall k | 0 <= k < |s| && (k < |first| + i || |first| + j <= k) ensures IsSpace(s[k]) {
      assert s[k] == if k < |first| then first[k] else if k < |first| + |t| then t[k - |first|] else last[k - |first| - |t|];
    }
  }

  lemma TrimStep(s: string)
    requires s != ""
    ensures IsSpace(s[0]) ==> TrimSpace(s) == TrimSpace(s[1..])
    ensures !IsSpace(s[0]) && IsSpace(s[|s| - 1]) ==> TrimSpace(s) == TrimSpace(s[..|s| - 1])
    ensures !IsSpace(s[0]) && !IsSpace(s[|s| - 1]) ==> TrimSpace(s) == s
  {}

  /** Nothing but white space is trimmed, and all of it at both ends. */
  lemma {:induction false} TrimKeepsTheWords(s: string) returns (i: nat, j: nat)
    ensures Trims(s, TrimSpace(s), i, j)
    decreases |s|
  {
    i, j := 0, |s|;
    if s == "" { return; }
    TrimStep(s);
    var n := |s| - 1;
    if IsSpace(s[0]) {
      i, j := TrimKeepsTheWords(s[1..]);
      TrimsAfter(s[0], s[1..], TrimSpace(s[1..]), i, j);
      assert s == [s[0]] + s[1..];
      i, j := i + 1, j + 1;
    } else if IsSpace(s[n]) {
      i, j := TrimKeepsTheWords(s[..n]);
      TrimsBefore(s[..n], s[n], TrimSpace(s[..n]), i, j);
      assert s == s[..n] + [s[n]];
    }
  }

  lemma TrimsAfter(first: char, t: string, r: string, i: nat, j: nat)
    requires Trims(t, r, i, j) && IsSpace(first)
    ensures Trims([first] + t, r, i + 1, j + 1)
  {
    TrimsMore([first], t, "", r, i, j);
    assert [first] + t + "" == [first] + t;
  }

  lemma TrimsBefore(t: string, last: char, r: string, i: nat, j: nat)
    requires Trims(t, r, i, j) && IsSpace(last)
    ensures Trims(t + [last], r, i, j)
  {
    TrimsMore("", t, [last], r, i, j);
    assert "" + t + [last] == t + [last];
  }

  /** There is one way to do so. */
  lemma TrimsOnce(s: string, i: nat, j: nat, i2: nat, j2: nat)
    requires i < j <= |s| && i2 < j2 <= |s| && Trims(s, s[i..j], i, j) && Trims(s, s[i2..j2], i2, j2)
    ensures i == i2 && j == j2
  {}

  const CAPITALS := "ABCDEFGHIJKLMNOPQRSTUVWXYZ"
  const SMALL := "abcdefghijklmnopqrstuvwxyz"

  lemma Alphabet(k: nat)
    requires k < 26
    ensures CAPITALS[k] as int == 'A' as int + k && SMALL[k] as int == 'a' as int + k
  {}

  /** Case is folded letter by letter, and nothing else changes. */
  lemma LowerFolds(s: string, i: nat)
    requires i < |s|
    ensures |Lower(s)| == |s|
    ensures forall k :: 0 <= k < 26 && s[i] == CAPITALS[k] ==> Lower(s)[i] == SMALL[k]
    ensures (forall k :: 0 <= k < 26 ==> s[i] != CAPITALS[k]) ==> Lower(s)[i] == s[i]
  {
    forall k | 0 <= k < 26 && s[i] == CAPITALS[k] ensures Lower(s)[i] == SMALL[k] { Alphabet(k); }
    if 'A' <= s[i] <= 'Z' { Alphabet(s[i] as int - 'A' as int); }
  }

  /** What stands between the occurrences that are replaced. */
  function Between(t: string, s: string): (ps: seq<string>)
    requires s != ""
    ensures ps != []
    decreases |t|
  {
    var i := IndexFrom(t, s, 0);
    if i == -1 then [t] else [t[..i]] + Between(t[i + |s|..], s)
  }

  function Joined(ps: seq<string>, separator: string): string
    requires ps != []
  {
    if |ps| == 1 then ps[0] else ps[0] + separator + Joined(ps[1..], separator)
  }

  /** Replacing puts the mask where the string was, and keeps everything between, none of which holds
      the string. */
  lemma ReplaceKeepsTheRest(t: string, s: string, mask: string)
    requires s != ""
    ensures t == Joined(Between(t, s), s) && ReplaceAll(t, s, mask) == Joined(Between(t, s), mask)
    ensures forall k :: 0 <= k < |Between(t, s)| ==> !Contains(Between(t, s)[k], s)
  {
    BetweenJoins(t, s);
    MaskJoins(t, s, mask);
    BetweenHasNone(t, s);
  }

  lemma {:induction false} BetweenJoins(t: string, s: string)
    requires s != ""
    ensures t == Joined(Between(t, s), s)
    decreases |t|
  {
    var i := IndexFrom(t, s, 0);
    if i != -1 {
      BetweenJoins(t[i + |s|..], s);
      CutAt(t, s, i);
      JoinedCons(t[..i], Between(t[i + |s|..], s), s);
    }
  }

  lemma {:induction false} MaskJoins(t: string, s: string, mask: string)
    requires s != ""
    ensures ReplaceAll(t, s, mask) == Joined(Between(t, s), mask)
    decreases |t|
  {
    var i := IndexFrom(t, s, 0);
    if i != -1 {
      MaskJoins(t[i + |s|..], s, mask);
      JoinedCons(t[..i], Between(t[i + |s|..], s), mask);
    }
  }

  lemma {:induction false} BetweenHasNone(t: string, s: string)
    requires s != ""
    ensures forall k :: 0 <= k < |Between(t, s)| ==> !Contains(Between(t, s)[k], s)
    decreases |t|
  {
    var i := IndexFrom(t, s, 0);
    if i != -1 {
      BetweenHasNone(t[i + |s|..], s);
      FirstHasNone(t, s, i);
      assert Between(t, s) == [t[..i]] + Between(t[i + |s|..], s);
    }
  }

  lemma JoinedCons(first: string, rest: seq<string>, separator: string)
    requires rest != []
    ensures Joined([first] + rest, separator) == first + separator + Joined(rest, separator)
  {
    assert ([first] + rest)[1..] == rest;
  }

  lemma CutAt(t: string, s: string, i: nat)
    requires OccursAt(t, s, i)
    ensures t == t[..i] + s + t[i + |s|..]
  {
    assert t[i..i + |s|] == s;
  }

  lemma FirstHasNone(t: string, s: string, i: nat)
    requires i <= |t| && forall j :: 0 <= j < i ==> !OccursAt(t, s, j)
    requires s != ""
    ensures !Contains(t[..i], s)
  {
    forall j ensures OccursAt(t[..i], s, j) ==> 0 <= j < i && OccursAt(t, s, j) { OccursInMore(t, i, s, j); }
  }

  lemma OccursInMore(t: string, i: nat, s: string, j: int)
    requires i <= |t|
    ensures OccursAt(t[..i], s, j) ==> OccursAt(t, s, j)
  {}

  function ReadDecimal(s: string): int {
    if s == "" then 0 else 10 * ReadDecimal(s[..|s| - 1]) + (s[|s| - 1] as int - '0' as int)
  }

  /** The digits of a number read as that number. */
  lemma {:induction false} DecimalReads(n: nat)
    ensures ReadDecimal(Decimal(n)) == n
  {
    var front := if n < 10 then "" else Decimal(n / 10);
    assert Decimal(n)[..|Decimal(n)| - 1] == front;
    if n >= 10 { DecimalReads(n / 10); }
  }
}
