/** Which failures of a driver are worth another attempt (runner/retry_policy.go), and what an
    attempt cost. */
module RetryPolicy {
  import opened Wrappers
  import opened Text
  import opened Verification

  datatype Class = NoClass | Cancelled | Environment | Transient | Permanent | Execution | Policy | ChecksFailed

  /** A driver's error: its text and what errors.Is and errors.As find in it. */
  datatype Failure = Failure(text: string, cancelled: bool, deadline: bool, policy: bool)

  /** Words of a call that never got an answer. */
  predicate TimesOut(f: Failure) { f.deadline || Has(Lower(f.text), "timeout") || Has(Lower(f.text), "connection reset") }

  /** Words of a provider that will not have the caller. */
  predicate TurnsAway(f: Failure) {
    var value := Lower(f.text);
    Has(value, "quota") || Has(value, "401") || Has(value, "403") || Has(value, "unauthorized") || Has(value, "permission")
  }

  /** Words of a provider that may have him later. */
  predicate Overloaded(f: Failure) {
    var value := Lower(f.text);
    Has(value, "429") || Has(value, "500") || Has(value, "502") || Has(value, "503") || Has(value, "504")
  }

  predicate LacksProgram(f: Failure) { IsEnvironmentFailure(Lower(f.text)) }

  function ClassifyRetry(f: Failure): (Class, bool) {
    if f.cancelled then (Cancelled, false)
    else if LacksProgram(f) then (Environment, false)
    else if TimesOut(f) then (Transient, true)
    else if TurnsAway(f) then (Permanent, false)
    else if Overloaded(f) then (Transient, true)
    else (Execution, false)
  }

  datatype Verdict = Verdict(kind: Class, retryable: bool)

  /** A verdict some failure can get: retryable exactly when transient. */
  type Judged = v: Verdict | (v.retryable <==> v.kind == Transient) && v.kind !in {ChecksFailed, NoClass} witness Verdict(Execution, false)

  /** What the attempt loop makes of a failure: a policy refusal is not classified by its words, a
      cancelled run and a missing program come before what the words say of the provider, and a
      provider that turns the caller away is not asked again unless the call timed out. */
  function Classify(f: Failure): (v: Judged)
    ensures v.retryable <==> !f.policy && !f.cancelled && !LacksProgram(f) && (TimesOut(f) || (Overloaded(f) && !TurnsAway(f)))
    ensures v.kind == Policy <==> f.policy
    ensures v.kind == Cancelled <==> f.cancelled && !f.policy
    ensures v.kind == Environment <==> LacksProgram(f) && !f.cancelled && !f.policy
    ensures v.kind == Permanent <==> TurnsAway(f) && !TimesOut(f) && !LacksProgram(f) && !f.cancelled && !f.policy
  {
    if f.policy then Verdict(Policy, false)
    else Verdict(ClassifyRetry(f).0, ClassifyRetry(f).1)
  }

  // The words, in the text with its case folded

  lemma TimesOutWords(f: Failure)
    ensures TimesOut(f) <==> f.deadline || Contains(Lower(f.text), "timeout") || Contains(Lower(f.text), "connection reset")
  {
    HasIsContains(Lower(f.text), "timeout");
    HasIsContains(Lower(f.text), "connection reset");
  }

  ghost predicate HoldsOne(value: string, words: seq<string>) {
    exists i :: 0 <= i < |words| && Contains(value, words[i])
  }

  lemma FiveWords(value: string, a: string, b: string, c: string, d: string, e: string)
    ensures HoldsOne(value, [a, b, c, d, e]) <==> Has(value, a) || Has(value, b) || Has(value, c) || Has(value, d) || Has(value, e)
  {
    var words := [a, b, c, d, e];
    assert words[0] == a && words[1] == b && words[2] == c && words[3] == d && words[4] == e;
    forall i | 0 <= i < 5 ensures Has(value, words[i]) <==> Contains(value, words[i]) { HasIsContains(value, words[i]); }
  }

  lemma TurnsAwayWords(f: Failure)
    ensures TurnsAway(f) <==> HoldsOne(Lower(f.text), ["quota", "401", "403", "unauthorized", "permission"])
  {
    FiveWords(Lower(f.text), "quota", "401", "403", "unauthorized", "permission");
  }

  lemma OverloadedWords(f: Failure)
    ensures Overloaded(f) <==> HoldsOne(Lower(f.text), ["429", "500", "502", "503", "504"])
  {
    FiveWords(Lower(f.text), "429", "500", "502", "503", "504");
  }

  // What an attempt costs

  /** The numbers a driver reports, where its text is a number. */
  datatype Output = Output(tokensIn: Option<int>, tokensOut: Option<int>, tokens: Option<int>, cost: Option<real>)

  datatype Spent = Spent(tokensIn: int, tokensOut: int, tokens: int, cost: real)

  const NOTHING := Spent(0, 0, 0, 0.0)

  function FieldInt(n: Option<int>, fallback: int): int {
    if n.None? || n.value <= 0 then fallback else n.value
  }

  /** What the driver says it cost, else the estimate for its tokens. */
  function OutputCost(o: Output, tokens: int, estimate: int -> real): real {
    if o.cost.Some? && o.cost.value > 0.0 then o.cost.value else estimate(tokens)
  }

  /** A count that is reported and positive is taken as it is, any other is none; what is not priced is
      estimated from the total. */
  function SpentBy(o: Output, estimate: int -> real): (r: Spent)
    ensures forall n: int :: n > 0 && o.tokensIn == Some(n) ==> r.tokensIn == n
    ensures forall n: int :: n > 0 && o.tokensOut == Some(n) ==> r.tokensOut == n
    ensures forall n: int :: n > 0 && o.tokens == Some(n) ==> r.tokens == n
    ensures o.tokensIn.None? || o.tokensIn.value <= 0 ==> r.tokensIn == 0
    ensures o.tokensOut.None? || o.tokensOut.value <= 0 ==> r.tokensOut == 0
    ensures o.tokens.None? || o.tokens.value <= 0 ==> r.tokens == 0
    ensures o.cost.Some? && o.cost.value > 0.0 ==> r.cost == o.cost.value
    ensures o.cost.None? || o.cost.value <= 0.0 ==> r.cost == estimate(r.tokens)
  {
    var tokens := FieldInt(o.tokens, 0);
    Spent(FieldInt(o.tokensIn, 0), FieldInt(o.tokensOut, 0), tokens, OutputCost(o, tokens, estimate))
  }

  function Plus(a: Spent, b: Spent): Spent {
    Spent(a.tokensIn + b.tokensIn, a.tokensOut + b.tokensOut, a.tokens + b.tokens, a.cost + b.cost)
  }
}
