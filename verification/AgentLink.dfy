/** The channel between an agent and its run: the socket server (internal/agentlink), one goroutine
    per connection, and the session that handles its messages (runner/agent.go). */
module AgentLink {
  import opened Wrappers
  import opened Text
  import Redact

  datatype MessageType = Event | Ask | Attention | Note | Overview | Report

  datatype Message = Message(kind: MessageType, text: string)

  /** An ask with something in it: the only message that stops a run. */
  predicate Asks(m: Message) { m.kind == Ask && TrimSpace(m.text) != "" }

  predicate AnyAsk(ms: seq<Message>) { exists i :: 0 <= i < |ms| && Asks(ms[i]) }

  lemma AsksHaveWords(m: Message)
    ensures Asks(m) <==> m.kind == Ask && exists k :: 0 <= k < |m.text| && !IsSpace(m.text[k])
  {
    var i, j := TrimKeepsTheWords(m.text);
    if i < j { assert !IsSpace(m.text[i]); }
  }

  /** The words of the last non-blank ask among the messages. */
  function LastWords(ms: seq<Message>): Option<string> {
    if ms == [] then None
    else if Asks(ms[|ms| - 1]) then Some(TrimSpace(ms[|ms| - 1].text))
    else LastWords(ms[..|ms| - 1])
  }

  /** `text` is what the last non-blank ask said. */
  ghost predicate SaidLast(ms: seq<Message>, text: string) {
    exists i :: 0 <= i < |ms| && Asks(ms[i]) && text == TrimSpace(ms[i].text) && forall j :: i < j < |ms| ==> !Asks(ms[j])
  }

  lemma {:induction false} LastWordsAre(ms: seq<Message>)
    ensures LastWords(ms).Some? <==> AnyAsk(ms)
    ensures LastWords(ms).Some? ==> SaidLast(ms, LastWords(ms).value)
    decreases |ms|
  {
    if ms != [] {
      var front, last := ms[..|ms| - 1], ms[|ms| - 1];
      assert ms == front + [last];
      LastWordsAre(front);
      if Asks(last) { SaidNow(front, last); } else { SaidBefore(front, last); }
    }
  }

  lemma SaidNow(front: seq<Message>, last: Message)
    requires Asks(last)
    ensures AnyAsk(front + [last]) && SaidLast(front + [last], TrimSpace(last.text))
  {
    var ms := front + [last];
    assert ms[|front|] == last;
  }

  lemma SaidBefore(front: seq<Message>, last: Message)
    requires !Asks(last)
    ensures AnyAsk(front + [last]) <==> AnyAsk(front)
    ensures forall text :: SaidLast(front, text) ==> SaidLast(front + [last], text)
  {
    var ms := front + [last];
    assert forall i :: 0 <= i < |front| ==> ms[i] == front[i];
    assert ms[|front|] == last;
    forall text | SaidLast(front, text) ensures SaidLast(ms, text) {
      var i :| 0 <= i < |front| && Asks(front[i]) && text == TrimSpace(front[i].text) && forall j :: i < j < |front| ==> !Asks(front[j]);
      assert Asks(ms[i]);
    }
  }

  lemma {:induction false} LastWordsConcat(a: seq<Message>, b: seq<Message>)
    ensures LastWords(a + b) == if LastWords(b).Some? then LastWords(b) else LastWords(a)
    decreases |b|
  {
    if b == [] {
      assert a + b == a;
    } else {
      assert (a + b)[..|a + b| - 1] == a + b[..|b| - 1];
      LastWordsConcat(a, b[..|b| - 1]);
    }
  }

  /** What `keep` makes of the last ask, if there is one. */
  ghost function AskedWith(keep: string -> Question, ms: seq<Message>): Option<Question> {
    if LastWords(ms).None? then None else Some(keep(LastWords(ms).value))
  }

  /** What leaves the machine of an ask: its words, exactly when nothing in them looks like a secret. */
  ghost function KeptOf(text: string, secrets: seq<string>, patterns: seq<Redact.Pattern>): Question {
    if Redact.LooksClean(text, secrets, patterns) then Words(text) else SecretNotice
  }

  /** What leaves the machine: the agent's words, or the fixed notice when they hold a secret. */
  datatype Question = Words(text: string) | SecretNotice

  class AgentSession {
    const secrets: seq<string>
    const patterns: seq<Redact.Pattern>
    var question: Option<Question>

    constructor (secrets: seq<string>, patterns: seq<Redact.Pattern>)
      ensures question == None && this.secrets == secrets && this.patterns == patterns
    {
      this.secrets, this.patterns := secrets, patterns;
      question := None;
    }

    ghost function Kept(text: string): Question { KeptOf(text, secrets, patterns) }

    method RecordQuestion(text: string)
      modifies this
      ensures question == Some(Kept(text))
    {
      var clean, found := Redact.Scan(text, secrets, patterns);
      question := Some(if found then SecretNotice else Words(clean));
    }

    method Handle(m: Message)
      modifies this
      ensures question == if Asks(m) then Some(Kept(TrimSpace(m.text))) else old(question)
    {
      if m.kind == Ask {
        var text := TrimSpace(m.text);
        if text == "" { return; }
        RecordQuestion(text);
      }
    }

    method TakeQuestion() returns (q: Option<Question>)
      modifies this
      ensures q == old(question) && question == None
    {
      q := question;
      question := None;
    }
  }

  // The server, step by step

  const MAX_MESSAGES: nat := 10000

  /** A connection's goroutine reads, or has a counted letter to handle, or one to acknowledge, or is gone. */
  datatype Phase = Reading | Handling(n: nat) | Acking(n: nat) | Gone

  /** The run loop took the question after `upto` letters were handled; there was one, or not. */
  datatype Taken = Taken(upto: nat, answered: bool)

  /** Connections are numbered as they are accepted, letters as they are counted; `handled` and `acked`
      are letters' numbers; `waiting` is the wait group; `question` whether one waits to be taken. */
  datatype Server = Server(received: nat, closed: bool, listening: bool, serving: bool, waiting: int, conns: seq<Phase>,
                           letters: seq<Message>, handled: seq<nat>, acked: seq<nat>, returned: bool, question: bool,
                           takes: seq<Taken>)

  datatype Action =
    | Accept
    | Receive(c: nat, m: Message)    // scanned and counted, or refused over the bound
    | Handle(c: nat)
    | Acknowledge(c: nat, written: bool)
    | HangUp(c: nat)                 // end of stream, deadline, or a line too long
    | CloseFlag                      // Close: closed was false
    | CloseListener
    | ServeExit                      // Accept answered an error
    | CloseReturn                    // the wait is over
    | Take                           // the run loop asks for the question

  function Listen(): Server {
    Server(0, false, true, true, 1, [], [], [], [], false, false, [])
  }

  predicate Enabled(s: Server, a: Action) {
    match a
    case Accept => s.serving && s.listening
    case Receive(c, _) => c < |s.conns| && s.conns[c].Reading?
    case Handle(c) => c < |s.conns| && s.conns[c].Handling?
    case Acknowledge(c, _) => c < |s.conns| && s.conns[c].Acking?
    case HangUp(c) => c < |s.conns| && s.conns[c].Reading?
    case CloseFlag => !s.closed
    case CloseListener => s.closed && s.listening
    case ServeExit => s.serving
    case CloseReturn => s.closed && !s.listening && s.waiting == 0 && !s.returned
    case Take => true
  }

  function Next(s: Server, a: Action): Server
    requires Enabled(s, a)
  {
    match a
    case Accept => s.(conns := s.conns + [Reading], waiting := s.waiting + 1)
    case Receive(c, m) =>
      if s.received + 1 > MAX_MESSAGES then
        s.(received := s.received + 1, conns := s.conns[c := Gone], waiting := s.waiting - 1)
      else
        s.(received := s.received + 1, conns := s.conns[c := Handling(|s.letters|)], letters := s.letters + [m])
    case Handle(c) =>
      var n := s.conns[c].n;
      s.(conns := s.conns[c := Acking(n)], handled := s.handled + [n],
         question := s.question || (n < |s.letters| && Asks(s.letters[n])))
    case Acknowledge(c, written) =>
      if written then s.(conns := s.conns[c := Reading], acked := s.acked + [s.conns[c].n])
      else s.(conns := s.conns[c := Gone], waiting := s.waiting - 1)
    case HangUp(c) => s.(conns := s.conns[c := Gone], waiting := s.waiting - 1)
    case CloseFlag => s.(closed := true)
    case CloseListener => s.(listening := false)
    case ServeExit => s.(serving := false, waiting := s.waiting - 1)
    case CloseReturn => s.(returned := true)
    case Take => s.(question := false, takes := s.takes + [Taken(|s.handled|, s.question)])
  }

  ghost predicate Runs(s: Server, actions: seq<Action>, s': Server)
    decreases |actions|
  {
    if actions == [] then s' == s
    else Enabled(s, actions[0]) && Runs(Next(s, actions[0]), actions[1..], s')
  }

  // What every interleaving keeps

  /** Sums over the connections: those alive, holding a message, owing an acknowledgement, and the
      steps they have left. */
  datatype Sum = Alive | InHand | Owing | Left

  function Of(k: Sum, p: Phase): nat {
    match k
    case Alive => if p.Gone? then 0 else 1
    case InHand => if p.Handling? then 1 else 0
    case Owing => if p.Acking? then 1 else 0
    case Left => if p.Handling? then 3 else if p.Acking? then 2 else if p.Reading? then 1 else 0
  }

  function Total(k: Sum, conns: seq<Phase>): nat {
    if conns == [] then 0 else Total(k, conns[..|conns| - 1]) + Of(k, conns[|conns| - 1])
  }

  lemma {:induction false} TotalUpdate(k: Sum, conns: seq<Phase>, c: nat, p: Phase)
    requires c < |conns|
    ensures Total(k, conns[c := p]) == Total(k, conns) - Of(k, conns[c]) + Of(k, p)
    decreases |conns|
  {
    var n := |conns| - 1;
    if c == n {
      assert conns[c := p][..n] == conns[..n];
    } else {
      assert conns[c := p][..n] == conns[..n][c := p];
      TotalUpdate(k, conns[..n], c, p);
    }
  }

  lemma {:induction false} NoneLeft(k: Sum, conns: seq<Phase>)
    requires Total(k, conns) == 0
    ensures forall c :: 0 <= c < |conns| ==> Of(k, conns[c]) == 0
    decreases |conns|
  {
    if conns != [] { NoneLeft(k, conns[..|conns| - 1]); }
  }

  lemma {:induction false} OneLeft(k: Sum, conns: seq<Phase>) returns (c: nat)
    requires Total(k, conns) > 0
    ensures c < |conns| && Of(k, conns[c]) > 0
    decreases |conns|
  {
    c := |conns| - 1;
    if Of(k, conns[c]) == 0 { c := OneLeft(k, conns[..c]); }
  }

  function Min(a: nat, b: nat): nat { if a < b then a else b }

  /** The wait group counts the accept loop and every live connection; the letters are the messages
      counted within the bound, each in hand or handled; each handled one is acknowledged at most once. */
  ghost predicate Counts(s: Server) {
    && s.waiting == (if s.serving then 1 else 0) + Total(Alive, s.conns)
    && |s.letters| == Min(s.received, MAX_MESSAGES)
    && |s.handled| + Total(InHand, s.conns) == |s.letters|
    && |s.acked| + Total(Owing, s.conns) <= |s.handled|
  }

  ghost predicate NoRepeats(xs: seq<nat>) {
    forall i, j :: 0 <= i < j < |xs| ==> xs[i] != xs[j]
  }

  predicate Holds(p: Phase, n: nat) { p == Handling(n) || p == Acking(n) }

  /** A letter in hand is not handled yet, one to acknowledge is, and not acknowledged. */
  ghost predicate ConnOk(p: Phase, s: Server) {
    match p
    case Handling(n) => n < |s.letters| && n !in s.handled
    case Acking(n) => n in s.handled && n !in s.acked
    case _ => true
  }

  ghost predicate Conns(s: Server) {
    && (forall c :: 0 <= c < |s.conns| ==> ConnOk(s.conns[c], s))
    && (forall c, d, n :: 0 <= c < d < |s.conns| && Holds(s.conns[c], n) ==> !Holds(s.conns[d], n))
  }

  /** Letters are handled once, and acknowledged once, after that. */
  ghost predicate Logs(s: Server) {
    && NoRepeats(s.handled) && NoRepeats(s.acked)
    && (forall n :: n in s.handled ==> n < |s.letters|)
    && (forall n :: n in s.acked ==> n in s.handled)
  }

  /** No letter is lost: it is handled, or some goroutine has it. */
  ghost predicate Kept(s: Server) {
    forall n: nat :: n < |s.letters| ==> n in s.handled || Handling(n) in s.conns
  }

  ghost predicate Drained(s: Server) {
    s.returned ==> s.closed && !s.listening && !s.serving && Total(Alive, s.conns) == 0
  }

  /** The letters handled between positions `lo` and `hi`. */
  function Window(s: Server, lo: nat, hi: nat): (r: seq<Message>)
    requires lo <= hi <= |s.handled| && forall i :: lo <= i < hi ==> s.handled[i] < |s.letters|
  {
    seq(hi - lo, i requires 0 <= i < hi - lo => s.letters[s.handled[lo + i]])
  }

  /** Where the window of the k-th take starts; the one that is open starts where the last take was. */
  function Since(takes: seq<Taken>, k: nat): nat
    requires k <= |takes|
  {
    if k == 0 then 0 else takes[k - 1].upto
  }

  ghost predicate AskIn(s: Server, lo: nat, hi: nat) {
    exists i {:trigger s.handled[i]} :: lo <= i < hi && i < |s.handled| && s.handled[i] < |s.letters| && Asks(s.letters[s.handled[i]])
  }

  /** The k-th take answered exactly whether an ask was handled since the take before it. */
  ghost predicate Closed(s: Server, k: nat)
    requires k < |s.takes|
  {
    && Since(s.takes, k) <= s.takes[k].upto <= |s.handled|
    && (s.takes[k].answered <==> AskIn(s, Since(s.takes, k), s.takes[k].upto))
  }

  /** Every take did, and a question waits exactly when an ask was handled since the last. */
  ghost predicate Heard(s: Server) {
    && (forall k: nat :: k < |s.takes| ==> Closed(s, k))
    && (s.question <==> AskIn(s, Since(s.takes, |s.takes|), |s.handled|))
  }

  ghost predicate Inv(s: Server) {
    Counts(s) && Logs(s) && Conns(s) && Kept(s) && Drained(s) && Heard(s)
  }

  /** What a connection's next phase does to the sums. */
  lemma Sums(conns: seq<Phase>, c: nat, p: Phase)
    requires c < |conns|
    ensures Total(Alive, conns[c := p]) == Total(Alive, conns) - Of(Alive, conns[c]) + Of(Alive, p)
    ensures Total(InHand, conns[c := p]) == Total(InHand, conns) - Of(InHand, conns[c]) + Of(InHand, p)
    ensures Total(Owing, conns[c := p]) == Total(Owing, conns) - Of(Owing, conns[c]) + Of(Owing, p)
    ensures Total(Left, conns[c := p]) == Total(Left, conns) - Of(Left, conns[c]) + Of(Left, p)
    ensures !conns[c].Gone? ==> Total(Alive, conns) > 0
  {
    TotalUpdate(Alive, conns, c, p);
    TotalUpdate(InHand, conns, c, p);
    TotalUpdate(Owing, conns, c, p);
    TotalUpdate(Left, conns, c, p);
    if Total(Alive, conns) == 0 { NoneLeft(Alive, conns); }
  }

  lemma ReceiveCounts(s: Server, c: nat, m: Message)
    requires Counts(s) && Drained(s) && Enabled(s, Receive(c, m))
    ensures Counts(Next(s, Receive(c, m))) && Drained(Next(s, Receive(c, m)))
  {
    Sums(s.conns, c, if s.received + 1 > MAX_MESSAGES then Gone else Handling(|s.letters|));
  }

  lemma HandleCounts(s: Server, c: nat)
    requires Counts(s) && Drained(s) && Enabled(s, Handle(c))
    ensures Counts(Next(s, Handle(c))) && Drained(Next(s, Handle(c)))
    ensures Total(Left, Next(s, Handle(c)).conns) < Total(Left, s.conns)
  {
    Sums(s.conns, c, Acking(s.conns[c].n));
  }

  lemma AcknowledgeCounts(s: Server, c: nat, written: bool)
    requires Counts(s) && Drained(s) && Enabled(s, Acknowledge(c, written))
    ensures Counts(Next(s, Acknowledge(c, written))) && Drained(Next(s, Acknowledge(c, written)))
    ensures Total(Left, Next(s, Acknowledge(c, written)).conns) < Total(Left, s.conns)
  {
    Sums(s.conns, c, if written then Reading else Gone);
  }

  lemma HangUpCounts(s: Server, c: nat)
    requires Counts(s) && Drained(s) && Enabled(s, HangUp(c))
    ensures Counts(Next(s, HangUp(c))) && Drained(Next(s, HangUp(c)))
    ensures Total(Left, Next(s, HangUp(c)).conns) < Total(Left, s.conns)
  {
    Sums(s.conns, c, Gone);
  }

  lemma CountsNext(s: Server, a: Action)
    requires Counts(s) && Drained(s) && Enabled(s, a)
    ensures Counts(Next(s, a)) && Drained(Next(s, a))
    ensures a.Handle? || a.Acknowledge? || a.HangUp? ==> Total(Left, Next(s, a).conns) < Total(Left, s.conns)
  {
    match a
    case Receive(c, m) => ReceiveCounts(s, c, m);
    case Handle(c) => HandleCounts(s, c);
    case Acknowledge(c, written) => AcknowledgeCounts(s, c, written);
    case HangUp(c) => HangUpCounts(s, c);
    case Accept => assert Next(s, a).conns[..|s.conns|] == s.conns;
    case _ =>
  }

  // Letters, action by action

  lemma ReceiveKeeps(s: Server, c: nat, m: Message)
    requires Logs(s) && Conns(s) && Kept(s) && Enabled(s, Receive(c, m))
    ensures var s' := Next(s, Receive(c, m)); Logs(s') && Conns(s') && Kept(s')
  {
    var s' := Next(s, Receive(c, m));
    if s.received + 1 > MAX_MESSAGES { Dropped(s, s', c); } else { Counted(s, s', c, m); }
  }

  /** A connection that holds no letter to handle goes. */
  lemma Dropped(s: Server, s': Server, c: nat)
    requires Logs(s) && Conns(s) && Kept(s) && c < |s.conns| && !s.conns[c].Handling?
    requires s'.conns == s.conns[c := Gone] && s'.letters == s.letters && s'.handled == s.handled && s'.acked == s.acked
    ensures Logs(s') && Conns(s') && Kept(s')
  {
    SameHolders(s.conns, s'.conns);
    forall d | 0 <= d < |s'.conns| ensures ConnOk(s'.conns[d], s') {
      if d != c { assert ConnOk(s.conns[d], s); }
    }
    StillInHand(s, s', c);
  }

  /** A letter is counted, and is in the hands of the connection it came by. */
  lemma Counted(s: Server, s': Server, c: nat, m: Message)
    requires Logs(s) && Conns(s) && Kept(s) && c < |s.conns| && s.conns[c].Reading?
    requires s'.conns == s.conns[c := Handling(|s.letters|)] && s'.letters == s.letters + [m]
    requires s'.handled == s.handled && s'.acked == s.acked
    ensures Logs(s') && Conns(s') && Kept(s')
  {
    assert s'.conns[c] == Handling(|s.letters|);
    forall n: nat | n < |s'.letters| ensures n in s'.handled || Handling(n) in s'.conns {
      if n < |s.letters| && n !in s.handled {
        var d :| 0 <= d < |s.conns| && s.conns[d] == Handling(n);
        assert s'.conns[d] == Handling(n);
      }
    }
    forall d | 0 <= d < |s'.conns| ensures ConnOk(s'.conns[d], s') {
      if d != c { assert ConnOk(s.conns[d], s); }
    }
    NewLetterApart(s, s'.conns, c);
  }

  lemma NewLetterApart(s: Server, conns: seq<Phase>, c: nat)
    requires Logs(s) && Conns(s) && c < |s.conns| && conns == s.conns[c := Handling(|s.letters|)]
    ensures forall d, e, n :: 0 <= d < e < |conns| && Holds(conns[d], n) ==> !Holds(conns[e], n)
  {
    forall d | 0 <= d < |conns| && d != c ensures !Holds(conns[d], |s.letters|) { assert ConnOk(s.conns[d], s); }
  }

  lemma HandleKeeps(s: Server, c: nat)
    requires Logs(s) && Conns(s) && Kept(s) && Enabled(s, Handle(c))
    ensures var s' := Next(s, Handle(c)); Logs(s') && Conns(s') && Kept(s')
  {
    var s' := Next(s, Handle(c));
    var n := s.conns[c].n;
    assert ConnOk(s.conns[c], s) && Holds(s.conns[c], n);
    assert s'.handled[|s.handled|] == n;
    assert forall k :: k in s'.handled <==> k in s.handled || k == n;
    forall k: nat | k < |s'.letters| ensures k in s'.handled || Handling(k) in s'.conns {
      if k !in s'.handled {
        var d :| 0 <= d < |s.conns| && s.conns[d] == Handling(k);
        assert s'.conns[d] == Handling(k);
      }
    }
    OthersApart(s.conns, c, n);
    forall d | 0 <= d < |s'.conns| ensures ConnOk(s'.conns[d], s') {
      if d != c {
        assert ConnOk(s.conns[d], s) && !Holds(s.conns[d], n);
      } else {
        assert n !in s.acked;
      }
    }
    SameHolders(s.conns, s'.conns);
  }

  /** Whoever else holds a letter holds another one. */
  lemma OthersApart(conns: seq<Phase>, c: nat, n: nat)
    requires c < |conns| && Holds(conns[c], n)
    requires forall c, d, n :: 0 <= c < d < |conns| && Holds(conns[c], n) ==> !Holds(conns[d], n)
    ensures forall d :: 0 <= d < |conns| && d != c ==> !Holds(conns[d], n)
  {}

  lemma SameHolders(conns: seq<Phase>, conns': seq<Phase>)
    requires |conns'| == |conns| && forall d, n :: 0 <= d < |conns| && Holds(conns'[d], n) ==> Holds(conns[d], n)
    requires forall c, d, n :: 0 <= c < d < |conns| && Holds(conns[c], n) ==> !Holds(conns[d], n)
    ensures forall c, d, n :: 0 <= c < d < |conns'| && Holds(conns'[c], n) ==> !Holds(conns'[d], n)
  {}

  lemma AcknowledgeKeeps(s: Server, c: nat, written: bool)
    requires Logs(s) && Conns(s) && Kept(s) && Enabled(s, Acknowledge(c, written))
    ensures var s' := Next(s, Acknowledge(c, written)); Logs(s') && Conns(s') && Kept(s')
  {
    var s' := Next(s, Acknowledge(c, written));
    var n := s.conns[c].n;
    assert ConnOk(s.conns[c], s) && Holds(s.conns[c], n);
    OthersApart(s.conns, c, n);
    SameHolders(s.conns, s'.conns);
    forall d | 0 <= d < |s'.conns| ensures ConnOk(s'.conns[d], s') {
      if d != c { assert ConnOk(s.conns[d], s) && !Holds(s.conns[d], n); }
    }
    StillInHand(s, s', c);
  }

  lemma HangUpKeeps(s: Server, c: nat)
    requires Logs(s) && Conns(s) && Kept(s) && Enabled(s, HangUp(c))
    ensures var s' := Next(s, HangUp(c)); Logs(s') && Conns(s') && Kept(s')
  {
    Dropped(s, Next(s, HangUp(c)), c);
  }

  lemma StillInHand(s: Server, s': Server, c: nat)
    requires Kept(s) && c < |s.conns| == |s'.conns| && !s.conns[c].Handling?
    requires s'.letters == s.letters && s'.handled == s.handled && forall d :: 0 <= d < |s.conns| && d != c ==> s'.conns[d] == s.conns[d]
    ensures Kept(s')
  {
    forall k: nat | k < |s'.letters| ensures k in s'.handled || Handling(k) in s'.conns {
      if k !in s.handled {
        var d :| 0 <= d < |s.conns| && s.conns[d] == Handling(k);
        assert s'.conns[d] == Handling(k);
      }
    }
  }

  lemma AcceptKeeps(s: Server)
    requires Logs(s) && Conns(s) && Kept(s) && Enabled(s, Accept)
    ensures var s' := Next(s, Accept); Logs(s') && Conns(s') && Kept(s')
  {
    var s' := Next(s, Accept);
    forall d | 0 <= d < |s'.conns| ensures ConnOk(s'.conns[d], s') {
      if d < |s.conns| { assert ConnOk(s.conns[d], s); }
    }
    forall k: nat | k < |s'.letters| ensures k in s'.handled || Handling(k) in s'.conns {
      if k !in s.handled {
        var d :| 0 <= d < |s.conns| && s.conns[d] == Handling(k);
        assert s'.conns[d] == Handling(k);
      }
    }
  }

  lemma LettersNext(s: Server, a: Action)
    requires Logs(s) && Conns(s) && Kept(s) && Enabled(s, a)
    ensures Logs(Next(s, a)) && Conns(Next(s, a)) && Kept(Next(s, a))
  {
    match a
    case Accept => AcceptKeeps(s);
    case Receive(c, m) => ReceiveKeeps(s, c, m);
    case Handle(c) => HandleKeeps(s, c);
    case Acknowledge(c, written) => AcknowledgeKeeps(s, c, written);
    case HangUp(c) => HangUpKeeps(s, c);
    case _ => Aside(s, Next(s, a));
  }

  lemma Aside(s: Server, s': Server)
    requires Logs(s) && Conns(s) && Kept(s)
    requires s'.conns == s.conns && s'.letters == s.letters && s'.handled == s.handled && s'.acked == s.acked
    ensures Logs(s') && Conns(s') && Kept(s')
  {
    forall d | 0 <= d < |s'.conns| ensures ConnOk(s'.conns[d], s') { assert ConnOk(s.conns[d], s); }
  }

  // The question

  lemma SameAsks(s: Server, s': Server, lo: nat, hi: nat)
    requires Logs(s) && hi <= |s.handled| && |s.handled| <= |s'.handled| && |s.letters| <= |s'.letters|
    requires forall i :: 0 <= i < |s.handled| ==> s'.handled[i] == s.handled[i]
    requires forall n :: 0 <= n < |s.letters| ==> s'.letters[n] == s.letters[n]
    ensures AskIn(s', lo, hi) <==> AskIn(s, lo, hi)
  {
    assert forall i :: 0 <= i < hi ==> s.handled[i] in s.handled;
    if AskIn(s, lo, hi) {
      var i :| lo <= i < hi && s.handled[i] < |s.letters| && Asks(s.letters[s.handled[i]]);
      assert s'.handled[i] == s.handled[i];
    }
    if AskIn(s', lo, hi) {
      var i :| lo <= i < hi && s'.handled[i] < |s'.letters| && Asks(s'.letters[s'.handled[i]]);
      assert s'.handled[i] == s.handled[i];
    }
  }

  /** The windows of takes past do not change. */
  lemma PastTakes(s: Server, s': Server)
    requires Logs(s) && Heard(s) && s'.takes == s.takes && |s.handled| <= |s'.handled| && |s.letters| <= |s'.letters|
    requires forall i :: 0 <= i < |s.handled| ==> s'.handled[i] == s.handled[i]
    requires forall n :: 0 <= n < |s.letters| ==> s'.letters[n] == s.letters[n]
    ensures forall k: nat :: k < |s'.takes| ==> Closed(s', k)
  {
    forall k: nat | k < |s'.takes| ensures Closed(s', k) { StillClosed(s, s', k); }
  }

  /** A window once closed stays as it was, whatever is counted, handled or taken after it. */
  lemma StillClosed(s: Server, s': Server, k: nat)
    requires Logs(s) && k < |s.takes| && Closed(s, k) && |s.handled| <= |s'.handled| && |s.letters| <= |s'.letters|
    requires |s.takes| <= |s'.takes| && s'.takes[k] == s.takes[k] && Since(s'.takes, k) == Since(s.takes, k)
    requires forall i :: 0 <= i < |s.handled| ==> s'.handled[i] == s.handled[i]
    requires forall n :: 0 <= n < |s.letters| ==> s'.letters[n] == s.letters[n]
    ensures Closed(s', k)
  {
    SameAsks(s, s', Since(s.takes, k), s.takes[k].upto);
  }

  /** The open window starts within what is handled. */
  lemma OpenSince(s: Server)
    requires Heard(s)
    ensures Since(s.takes, |s.takes|) <= |s.handled|
  {
    if s.takes != [] { assert Closed(s, |s.takes| - 1); }
  }

  lemma HandleHeard(s: Server, c: nat)
    requires Logs(s) && Conns(s) && Heard(s) && Enabled(s, Handle(c))
    ensures Heard(Next(s, Handle(c)))
  {
    var s', lo := Next(s, Handle(c)), Since(s.takes, |s.takes|);
    assert ConnOk(s.conns[c], s);
    PastTakes(s, s');
    OpenSince(s);
    SameAsks(s, s', lo, |s.handled|);
    var n := s.conns[c].n;
    assert s'.handled[|s.handled|] == n;
    if Asks(s.letters[n]) { assert AskIn(s', lo, |s'.handled|); }
    if AskIn(s, lo, |s.handled|) { Widen(s', lo, |s.handled|, |s'.handled|); }
    if AskIn(s', lo, |s'.handled|) {
      var i :| lo <= i < |s'.handled| && s'.handled[i] < |s'.letters| && Asks(s'.letters[s'.handled[i]]);
      assert i == |s.handled| || AskIn(s', lo, |s.handled|);
    }
  }

  lemma Widen(s: Server, lo: nat, mid: nat, hi: nat)
    requires AskIn(s, lo, mid) && mid <= hi
    ensures AskIn(s, lo, hi)
  {}

  /** Taking closes the open window: it was answered by the question that waited. */
  lemma ClosedByTake(s: Server, s': Server)
    requires Logs(s) && Heard(s) && s'.takes == s.takes + [Taken(|s.handled|, s.question)]
    requires s'.handled == s.handled && s'.letters == s.letters
    ensures Closed(s', |s.takes|)
  {
    var n := |s.takes|;
    assert Since(s'.takes, n) == Since(s.takes, n);
    OpenSince(s);
    SameAsks(s, s', Since(s.takes, n), |s.handled|);
  }

  lemma TakeHeard(s: Server)
    requires Logs(s) && Heard(s)
    ensures Heard(Next(s, Take))
  {
    TookHeard(s, s.(question := false, takes := s.takes + [Taken(|s.handled|, s.question)]));
  }

  lemma TookHeard(s: Server, s': Server)
    requires Logs(s) && Heard(s) && !s'.question && s'.takes == s.takes + [Taken(|s.handled|, s.question)]
    requires s'.handled == s.handled && s'.letters == s.letters
    ensures Heard(s')
  {
    ClosedByTake(s, s');
    forall k: nat | k < |s'.takes| ensures Closed(s', k) {
      if k < |s.takes| {
        assert Since(s'.takes, k) == Since(s.takes, k);
        StillClosed(s, s', k);
      }
    }
    assert Since(s'.takes, |s'.takes|) == |s'.handled|;
  }

  lemma HeardNext(s: Server, a: Action)
    requires Logs(s) && Conns(s) && Heard(s) && Enabled(s, a)
    ensures Heard(Next(s, a))
  {
    if a.Handle? {
      HandleHeard(s, a.c);
    } else if a.Take? {
      TakeHeard(s);
    } else {
      BooksStay(s, a);
      LettersStay(s, a);
      HeardAside(s, Next(s, a));
    }
  }

  lemma BooksStay(s: Server, a: Action)
    requires Enabled(s, a) && !a.Handle? && !a.Take?
    ensures var s' := Next(s, a); s'.handled == s.handled && s'.takes == s.takes && s'.question == s.question
  {}

  /** Nothing is handled or taken. */
  lemma HeardAside(s: Server, s': Server)
    requires Logs(s) && Heard(s) && s'.handled == s.handled && s'.takes == s.takes && s'.question == s.question
    requires |s.letters| <= |s'.letters| && forall n :: 0 <= n < |s.letters| ==> s'.letters[n] == s.letters[n]
    ensures Heard(s')
  {
    PastTakes(s, s');
    SameAsks(s, s', Since(s.takes, |s.takes|), |s.handled|);
  }

  lemma StepKeeps(s: Server, a: Action)
    requires Inv(s) && Enabled(s, a)
    ensures Inv(Next(s, a))
  {
    CountsNext(s, a);
    LettersNext(s, a);
    HeardNext(s, a);
  }

  lemma {:induction false} RunsKeep(s: Server, actions: seq<Action>, s': Server)
    requires Inv(s) && Runs(s, actions, s')
    ensures Inv(s')
    decreases |actions|
  {
    if actions != [] {
      StepKeeps(s, actions[0]);
      RunsKeep(Next(s, actions[0]), actions[1..], s');
    }
  }

  /** For every interleaving: at most the bound is handled, each letter once; an acknowledged letter was
      handled, and is acknowledged once. */
  lemma AcknowledgedIsHandled(actions: seq<Action>, s: Server)
    requires Runs(Listen(), actions, s)
    ensures NoRepeats(s.acked) && NoRepeats(s.handled) && forall n :: n in s.acked ==> n in s.handled && n < |s.letters|
    ensures |s.acked| <= |s.handled| <= |s.letters| && |s.letters| == Min(s.received, 10000)
  {
    RunsKeep(Listen(), actions, s);
  }

  /** A message can always be served: in every state that can be reached, one that arrives on a connection
      that reads becomes the next letter, is handled and acknowledged, and the connection reads on, if
      fewer than 10000 messages arrived before it; else the connection ends and nothing is handled. */
  lemma AMessageCanBeServed(before: seq<Action>, s: Server, c: nat, m: Message) returns (s': Server)
    requires Runs(Listen(), before, s) && c < |s.conns| && s.conns[c].Reading?
    ensures s.received < 10000 ==>
              && Runs(s, [Receive(c, m), Handle(c), Acknowledge(c, true)], s')
              && s'.letters == s.letters + [m] && s'.handled == s.handled + [|s.letters|] && s'.acked == s.acked + [|s.letters|]
              && s'.conns == s.conns && s'.question == (s.question || Asks(m))
    ensures s.received >= 10000 ==>
              && Runs(s, [Receive(c, m)], s')
              && s'.letters == s.letters && s'.handled == s.handled && s'.acked == s.acked && s'.question == s.question
              && s'.conns == s.conns[c := Gone]
  {
    RunsKeep(Listen(), before, s);
    if s.received < 10000 { s' := Served(s, c, m); } else { s' := TurnedAway(s, c, m); }
  }

  lemma Served(s: Server, c: nat, m: Message) returns (s': Server)
    requires s.received < MAX_MESSAGES && c < |s.conns| && s.conns[c].Reading?
    ensures Runs(s, [Receive(c, m), Handle(c), Acknowledge(c, true)], s')
    ensures s'.letters == s.letters + [m] && s'.handled == s.handled + [|s.letters|] && s'.acked == s.acked + [|s.letters|]
    ensures s'.conns == s.conns && s'.question == (s.question || Asks(m))
  {
    var one := s.(received := s.received + 1, conns := s.conns[c := Handling(|s.letters|)], letters := s.letters + [m]);
    assert Next(s, Receive(c, m)) == one;
    var two := one.(conns := s.conns[c := Acking(|s.letters|)], handled := s.handled + [|s.letters|], question := s.question || Asks(m));
    assert Next(one, Handle(c)) == two;
    s' := two.(conns := s.conns, acked := s.acked + [|s.letters|]);
    assert Next(two, Acknowledge(c, true)) == s';
    RunsOne(two, Acknowledge(c, true));
    RunsThen(one, Handle(c), [Acknowledge(c, true)], s');
    RunsThen(s, Receive(c, m), [Handle(c), Acknowledge(c, true)], s');
  }

  lemma TurnedAway(s: Server, c: nat, m: Message) returns (s': Server)
    requires s.received >= MAX_MESSAGES && c < |s.conns| && s.conns[c].Reading?
    ensures Runs(s, [Receive(c, m)], s')
    ensures s'.letters == s.letters && s'.handled == s.handled && s'.acked == s.acked && s'.question == s.question
    ensures s'.conns == s.conns[c := Gone]
  {
    s' := Next(s, Receive(c, m));
    RunsOne(s, Receive(c, m));
  }

  lemma RunsOne(s: Server, a: Action)
    requires Enabled(s, a)
    ensures Runs(s, [a], Next(s, a))
  {
    assert [a][1..] == [] && Runs(Next(s, a), [], Next(s, a));
  }

  lemma RunsThen(s: Server, a: Action, actions: seq<Action>, s': Server)
    requires Enabled(s, a) && Runs(Next(s, a), actions, s')
    ensures Runs(s, [a] + actions, s')
  {
    assert ([a] + actions)[1..] == actions;
  }

  /** For every interleaving: the ask of an acknowledged letter is in the question that waits, or the
      take whose window it was handled in answered one. */
  lemma AcknowledgedAskIsHeard(actions: seq<Action>, s: Server, n: nat) returns (i: nat, k: nat)
    requires Runs(Listen(), actions, s) && n in s.acked && n < |s.letters| && Asks(s.letters[n])
    ensures i < |s.handled| && s.handled[i] == n && k <= |s.takes| && Since(s.takes, k) <= i
    ensures k == |s.takes| ==> s.question
    ensures k < |s.takes| ==> i < s.takes[k].upto && s.takes[k].answered
  {
    RunsKeep(Listen(), actions, s);
    i :| 0 <= i < |s.handled| && s.handled[i] == n;
    k := TakeOf(s, i);
    AnsweredBy(s, i, k);
  }

  /** The take whose window position `i` is in, or the one still to come. */
  lemma TakeOf(s: Server, i: nat) returns (k: nat)
    ensures k <= |s.takes| && Since(s.takes, k) <= i && (k < |s.takes| ==> i < s.takes[k].upto)
  {
    k := 0;
    while k < |s.takes| && s.takes[k].upto <= i
      invariant k <= |s.takes| && Since(s.takes, k) <= i
    {
      k := k + 1;
    }
  }

  lemma AnsweredBy(s: Server, i: nat, k: nat)
    requires Heard(s) && i < |s.handled| && s.handled[i] < |s.letters| && Asks(s.letters[s.handled[i]])
    requires k <= |s.takes| && Since(s.takes, k) <= i && (k < |s.takes| ==> i < s.takes[k].upto)
    ensures if k == |s.takes| then s.question else s.takes[k].answered
  {
    if k < |s.takes| { assert Closed(s, k); }
    assert AskIn(s, Since(s.takes, k), if k == |s.takes| then |s.handled| else s.takes[k].upto);
  }

  /** Close drains: once the first Close has returned, every letter ever counted is handled, and no
      interleaving counts, handles or acknowledges any more. */
  lemma {:induction false} NothingAfterClose(s: Server, actions: seq<Action>, s': Server)
    requires Inv(s) && s.returned && Runs(s, actions, s')
    ensures s'.letters == s.letters && s'.handled == s.handled && s'.acked == s.acked && s'.returned
    ensures forall n: nat :: n < |s'.letters| ==> n in s'.handled
    decreases |actions|
  {
    NoneLeft(Alive, s.conns);
    assert forall n :: Handling(n) !in s.conns;
    if actions != [] {
      StepKeeps(s, actions[0]);
      NothingAfterClose(Next(s, actions[0]), actions[1..], s');
    }
  }

  lemma LettersStay(s: Server, a: Action)
    requires Enabled(s, a)
    ensures var s' := Next(s, a); |s.letters| <= |s'.letters| && forall n :: 0 <= n < |s.letters| ==> s'.letters[n] == s.letters[n]
  {}

  /** Close waits for what is in flight: a letter counted at any moment is still that letter, and
      handled exactly once, when Close has returned. */
  lemma {:induction false} InFlightIsHandled(s: Server, actions: seq<Action>, s': Server, n: nat)
    requires Inv(s) && Runs(s, actions, s') && n < |s.letters|
    ensures n < |s'.letters| && s'.letters[n] == s.letters[n]
    ensures s'.returned ==> n in s'.handled && NoRepeats(s'.handled)
    decreases |actions|
  {
    if actions == [] {
      if s.returned {
        NoneLeft(Alive, s.conns);
        assert Handling(n) !in s.conns;
      }
    } else {
      StepKeeps(s, actions[0]);
      LettersStay(s, actions[0]);
      InFlightIsHandled(Next(s, actions[0]), actions[1..], s', n);
    }
  }

  /** Close can always return: whatever is in flight, some order of the steps left ends the wait. */
  lemma {:induction false} CloseDrains(s: Server) returns (actions: seq<Action>, s': Server)
    requires Inv(s) && s.closed && !s.listening && !s.returned
    ensures Runs(s, actions, s') && s'.returned
    decreases Total(Left, s.conns), s.serving
  {
    var a := if s.serving then ServeExit else CloseReturn;
    if Total(Left, s.conns) > 0 {
      var c := OneLeft(Left, s.conns);
      a := if s.conns[c].Handling? then Handle(c) else if s.conns[c].Acking? then Acknowledge(c, true) else HangUp(c);
    } else {
      AliveLeft(s.conns);
    }
    StepKeeps(s, a);
    CountsNext(s, a);
    if a == CloseReturn {
      actions, s' := [], Next(s, a);
    } else {
      actions, s' := CloseDrains(Next(s, a));
    }
    assert ([a] + actions)[1..] == actions;
    actions := [a] + actions;
  }

  lemma {:induction false} AliveLeft(conns: seq<Phase>)
    ensures Total(Alive, conns) <= Total(Left, conns)
    decreases |conns|
  {
    if conns != [] { AliveLeft(conns[..|conns| - 1]); }
  }
}
