/** The `<reviews>` block of a repair run's prompt (runner/review_prompt.go), and a reader for it.
    Markup is what starts at `<`, `>` or `"`; between two of them stands a text in which only the
    five predefined entities of section 4.6 of XML 1.0 are references. */
module Reviews {
  import opened Wrappers
  import Text

  // What the claim carries, and what the worktree holds at a comment's path

  datatype Comment = Comment(id: string, author: string, path: string, body: string,
                             left: bool, lineStart: int, lineEnd: int)

  datatype FileView =
    | OutsideTree               // absolute, climbing out, or through a planted link
    | NotThere
    | Lines(lines: seq<string>)

  // Printing

  const CONTEXT := 3
  const MAX_LINES := 200
  const LEFT_NOTE := "the comment is on the " + "old version of the file"

  function EscapeChar(c: char): string {
    if c == '&' then "&amp;"
    else if c == '<' then "&lt;"
    else if c == '>' then "&gt;"
    else if c == '"' then "&quot;"
    else if c == '\'' then "&apos;"
    else [c]
  }

  function EscapeXML(text: string): string {
    if text == "" then "" else EscapeChar(text[0]) + EscapeXML(text[1..])
  }

  function Join(lines: seq<string>): string {
    if lines == [] then ""
    else if |lines| == 1 then lines[0]
    else lines[0] + "\n" + Join(lines[1..])
  }

  function Span(from: nat, to: nat): string { Text.Decimal(from) + "-" + Text.Decimal(to) }

  function Min(a: int, b: int): int { if a < b then a else b }
  function Max(a: int, b: int): int { if a < b then b else a }

  /** The last commented line: never before the first. */
  function End(c: Comment): int { Max(c.lineEnd, c.lineStart) }
  function From(c: Comment): int { Max(c.lineStart - CONTEXT, 1) }
  function To(c: Comment): int { Min(End(c) + CONTEXT, From(c) + MAX_LINES - 1) }

  /** The lines an excerpt quotes, numbered from one: those in From..To that exist. */
  function Quoted(c: Comment, lines: seq<string>): seq<string>
    requires c.lineStart >= 1
  {
    lines[Min(From(c) - 1, |lines|)..Min(To(c), |lines|)]
  }

  /** Text is laid out in pieces, each starting with one of the three markup characters. */
  datatype Piece = Piece(mark: char, text: string)

  function Render(pieces: seq<Piece>): string {
    if pieces == [] then "" else [pieces[0].mark] + pieces[0].text + Render(pieces[1..])
  }

  /** `<file src="…" NAME="…" …/>` */
  function EmptyFile(c: Comment, more: seq<Piece>): seq<Piece> {
    [Piece('<', "file src="), Piece('"', EscapeXML(c.path))] + more + [Piece('"', "/"), Piece('>', "")]
  }

  /** `<file src="…" line="…">⏎…⏎</file>` */
  function FilledFile(c: Comment, quoted: seq<string>): seq<Piece>
    requires c.lineStart >= 1 && quoted != []
  {
    [Piece('<', "file src="), Piece('"', EscapeXML(c.path)), Piece('"', " line="),
     Piece('"', Span(From(c), From(c) + |quoted| - 1)), Piece('"', ""),
     Piece('>', "\n" + EscapeXML(Join(quoted)) + "\n"), Piece('<', "/file"), Piece('>', "")]
  }

  function FileElement(c: Comment, view: FileView): seq<Piece> {
    if view.OutsideTree? then EmptyFile(c, [Piece('"', " missing="), Piece('"', "outside the repository")])
    else if c.left then
      EmptyFile(c, [Piece('"', " side="), Piece('"', "LEFT"),
                    Piece('"', " note="), Piece('"', LEFT_NOTE)])
    else if c.lineStart < 1 then EmptyFile(c, [])
    else if view.NotThere? then EmptyFile(c, [Piece('"', " missing="), Piece('"', "not in the worktree")])
    else if Quoted(c, view.lines) == [] then
      EmptyFile(c, [Piece('"', " line="), Piece('"', Span(c.lineStart, End(c))),
                    Piece('"', " missing="), Piece('"', "the file is shorter")])
    else FilledFile(c, Quoted(c, view.lines))
  }

  method Bounds(c: Comment) returns (from: int, to: int)
    requires c.lineStart >= 1
    ensures from == From(c) && to == To(c)
  {
    var end := c.lineEnd;
    if end < c.lineStart { end := c.lineStart; }
    from := c.lineStart - CONTEXT;
    if from < 1 { from := 1; }
    to := end + CONTEXT;
    if to - from + 1 > MAX_LINES { to := from + MAX_LINES - 1; }
  }

  /** The loop over the scanner's lines. */
  method QuoteLines(c: Comment, file: seq<string>) returns (lines: seq<string>)
    requires c.lineStart >= 1
    ensures lines == Quoted(c, file) && |lines| <= 200
    ensures exists first :: IsWindow(c, file, lines, first)
    ensures c.lineStart <= |file| ==> file[c.lineStart - 1] in lines
  {
    var from, to := Bounds(c);
    lines := [];
    var number := 1;
    while number <= |file| && number <= to
      invariant 1 <= number <= Min(|file|, to) + 1
      invariant |lines| == Max(0, number - from)
      invariant forall k :: 0 <= k < |lines| ==> lines[k] == file[from - 1 + k]
    {
      if number >= from { lines := lines + [file[number - 1]]; }
      number := number + 1;
    }
    QuotedIs(c, file, lines);
    WindowIs(c, file);
    if c.lineStart <= |file| { assert lines[c.lineStart - from] == file[c.lineStart - 1]; }
  }

  /** Line `n` is quoted: from three before the first commented line to three after the last, and no more
      than 200 of them. */
  predicate InWindow(c: Comment, n: int) {
    && 1 <= n && c.lineStart - 3 <= n && (n <= c.lineStart + 3 || n <= c.lineEnd + 3)
    && (n <= 200 || n <= c.lineStart + 196)
  }

  /** `quoted` is the file's lines in the window, in order, the first of them line `first`. */
  ghost predicate IsWindow(c: Comment, file: seq<string>, quoted: seq<string>, first: int) {
    && (forall n: int :: 1 <= n <= |file| ==> (InWindow(c, n) <==> first <= n < first + |quoted|))
    && (quoted != [] ==> 1 <= first && first + |quoted| <= |file| + 1)
    && forall k :: 0 <= k < |quoted| && 1 <= first + k <= |file| ==> quoted[k] == file[first + k - 1]
  }

  lemma WindowIs(c: Comment, file: seq<string>)
    requires c.lineStart >= 1
    ensures IsWindow(c, file, Quoted(c, file), From(c))
    ensures Quoted(c, file) == [] <==> |file| == 0 || |file| < c.lineStart - 3
  {}

  lemma QuotedIs(c: Comment, file: seq<string>, lines: seq<string>)
    requires c.lineStart >= 1 && |lines| == Max(0, Min(|file|, To(c)) + 1 - From(c))
    requires forall k :: 0 <= k < |lines| ==> lines[k] == file[From(c) - 1 + k]
    ensures lines == Quoted(c, file)
  {}

  /** `<review id="…" author="…">` */
  function ReviewHead(c: Comment): seq<Piece> {
    [Piece('<', "review id="), Piece('"', EscapeXML(c.id)), Piece('"', " author="),
     Piece('"', EscapeXML(c.author)), Piece('"', ""), Piece('>', "")]
  }

  /** `<comment>…</comment></review>⏎` */
  function ReviewTail(c: Comment): seq<Piece> {
    [Piece('<', "comment"), Piece('>', EscapeXML(c.body)), Piece('<', "/comment"), Piece('>', ""),
     Piece('<', "/review"), Piece('>', "\n")]
  }

  function ReviewElement(c: Comment, view: FileView): seq<Piece> {
    ReviewHead(c) + FileElement(c, view) + ReviewTail(c)
  }

  const BLOCK_START := [Piece('<', "reviews"), Piece('>', "\n")]
  const BLOCK_END := [Piece('<', "/reviews"), Piece('>', "\n")]

  function ReviewElements(comments: seq<Comment>, view: Comment -> FileView): seq<Piece> {
    if comments == [] then []
    else ReviewElement(comments[0], view(comments[0])) + ReviewElements(comments[1..], view)
  }

  function Block(comments: seq<Comment>, view: Comment -> FileView): string {
    Render(BLOCK_START + ReviewElements(comments, view) + BLOCK_END)
  }

  // Reading

  predicate IsMark(c: char) { c == '<' || c == '>' || c == '"' }

  /** The pieces of a text that starts with markup. */
  function Pieces(s: string): (ps: seq<Piece>)
    requires s != "" ==> IsMark(s[0])
    decreases |s|
  {
    if s == "" then []
    else
      var n := TextLength(s[1..]);
      [Piece(s[0], s[1..][..n])] + Pieces(s[1..][n..])
  }

  function TextLength(s: string): (n: nat)
    ensures n <= |s| && (n < |s| ==> IsMark(s[n])) && Clean(s[..n])
  {
    if s == "" || IsMark(s[0]) then 0 else TextLength(s[1..]) + 1
  }

  predicate Clean(s: string) {
    forall k :: 0 <= k < |s| ==> !IsMark(s[k])
  }

  function Decode(s: string): Option<string>
    decreases |s|
  {
    if s == "" then Some("")
    else if s[0] != '&' then Prefix([s[0]], Decode(s[1..]))
    else if "&amp;" <= s then Prefix("&", Decode(s[5..]))
    else if "&lt;" <= s then Prefix("<", Decode(s[4..]))
    else if "&gt;" <= s then Prefix(">", Decode(s[4..]))
    else if "&quot;" <= s then Prefix("\"", Decode(s[6..]))
    else if "&apos;" <= s then Prefix("'", Decode(s[6..]))
    else None
  }

  function Prefix(p: string, rest: Option<string>): Option<string> {
    if rest.None? then None else Some(p + rest.value)
  }

  datatype Review = Review(id: string, author: string, path: string, excerpt: Option<string>, body: string)

  /** The first position at or after `i` of a piece, or the length. */
  function FindPiece(ps: seq<Piece>, p: Piece, i: nat): (k: nat)
    requires i <= |ps|
    ensures i <= k <= |ps| && (k < |ps| ==> ps[k] == p)
    decreases |ps| - i
  {
    if i == |ps| || ps[i] == p then i else FindPiece(ps, p, i + 1)
  }

  /** What a `<file>` element shows: the text between its tags, when it has two. */
  function ReadExcerpt(file: seq<Piece>): Option<string> {
    if |file| >= 3 && file[|file| - 2] == Piece('<', "/file") then Decode(file[|file| - 3].text) else None
  }

  predicate IsHead(ps: seq<Piece>) {
    |ps| >= 8 && ps[0] == Piece('<', "review id=") && ps[2] == Piece('"', " author=") && ps[4] == Piece('"', "")
    && ps[5] == Piece('>', "") && ps[6] == Piece('<', "file src=")
  }

  predicate IsTail(ps: seq<Piece>, k: nat) {
    |ps| >= k + 6 && ps[k + 1].mark == '>' && ps[k + 2] == Piece('<', "/comment") && ps[k + 3] == Piece('>', "")
    && ps[k + 4] == Piece('<', "/review") && ps[k + 5] == Piece('>', "\n")
  }

  /** The review that starts at the first piece, and how many pieces it takes. */
  function ReadReview(ps: seq<Piece>): Option<(Review, nat)> {
    var k := FindPiece(ps, Piece('<', "comment"), 0);
    if !IsHead(ps) || !IsTail(ps, k) || k < 8 then None
    else
      var id, author, path, body := Decode(ps[1].text), Decode(ps[3].text), Decode(ps[7].text), Decode(ps[k + 1].text);
      if id.None? || author.None? || path.None? || body.None? then None
      else Some((Review(id.value, author.value, path.value, ReadExcerpt(ps[6..k]), body.value), k + 6))
  }

  function ReadReviews(ps: seq<Piece>): Option<seq<Review>>
    decreases |ps|
  {
    var first := ReadReview(ps);
    if first.Some? && 0 < first.value.1 <= |ps| then
      var more := ReadReviews(ps[first.value.1..]);
      if more.None? then None else Some([first.value.0] + more.value)
    else if ps == BLOCK_END then Some([])
    else None
  }

  function ReadBlock(s: string): Option<seq<Review>> {
    if s == "" || !IsMark(s[0]) || !(BLOCK_START <= Pieces(s)) then None else ReadReviews(Pieces(s)[2..])
  }

  // The round trip

  function Excerpt(c: Comment, view: FileView): Option<string> {
    if view.OutsideTree? || c.left || c.lineStart < 1 || view.NotThere? || Quoted(c, view.lines) == [] then None
    else Some("\n" + Join(Quoted(c, view.lines)) + "\n")
  }

  function Expected(comments: seq<Comment>, view: Comment -> FileView): (r: seq<Review>)
    ensures |r| == |comments|
    ensures forall k :: 0 <= k < |comments| ==>
              r[k] == Review(comments[k].id, comments[k].author, comments[k].path, Excerpt(comments[k], view(comments[k])), comments[k].body)
  {
    seq(|comments|, k requires 0 <= k < |comments| =>
      Review(comments[k].id, comments[k].author, comments[k].path, Excerpt(comments[k], view(comments[k])), comments[k].body))
  }

  /** A comment has an excerpt exactly when it points into a file of the worktree that has the lines. */
  lemma ExcerptIs(c: Comment, view: FileView)
    ensures Excerpt(c, view).Some? <==>
              view.Lines? && !c.left && c.lineStart >= 1 && |view.lines| >= 1 && |view.lines| >= c.lineStart - 3
    ensures Excerpt(c, view).Some? ==> Shows(Excerpt(c, view).value, c, view.lines)
  {
    if view.Lines? && !c.left && c.lineStart >= 1 {
      WindowIs(c, view.lines);
      if Excerpt(c, view).Some? { assert IsExcerpt(Excerpt(c, view).value, c, view.lines, Quoted(c, view.lines), From(c)); }
    }
  }

  /** The excerpt is the lines of the window, one after the other. */
  ghost predicate Shows(excerpt: string, c: Comment, file: seq<string>) {
    exists quoted, first :: IsExcerpt(excerpt, c, file, quoted, first)
  }

  ghost predicate IsExcerpt(excerpt: string, c: Comment, file: seq<string>, quoted: seq<string>, first: int) {
    quoted != [] && IsWindow(c, file, quoted, first) && excerpt == "\n" + Join(quoted) + "\n"
  }

  /** The lines of a text. */
  function LinesOf(s: string): (lines: seq<string>)
    ensures lines != []
  {
    if s == "" then [""]
    else
      var rest := LinesOf(s[1..]);
      if s[0] == '\n' then [""] + rest else [[s[0]] + rest[0]] + rest[1..]
  }

  lemma {:induction false} LinesOfLine(line: string, rest: string)
    requires '\n' !in line
    ensures LinesOf(line + "\n" + rest) == [line] + LinesOf(rest) && LinesOf(line) == [line]
    decreases |line|
  {
    var s := line + "\n" + rest;
    if line == "" {
      assert s[1..] == rest;
    } else {
      assert s[1..] == line[1..] + "\n" + rest;
      LinesOfLine(line[1..], rest);
      assert [line[0]] + line[1..] == line;
    }
  }

  /** Joined lines can be told apart again: none is lost, cut or merged. */
  lemma {:induction false} JoinedLines(lines: seq<string>)
    requires lines != [] && forall k :: 0 <= k < |lines| ==> '\n' !in lines[k]
    ensures LinesOf(Join(lines)) == lines
    decreases |lines|
  {
    LinesOfLine(lines[0], Join(lines[1..]));
    if |lines| > 1 {
      JoinedLines(lines[1..]);
      assert [lines[0]] + lines[1..] == lines;
    }
  }

  /** The value of an attribute, the first or the second after `src`. */
  function Attribute(file: seq<Piece>, name: string): Option<string> {
    if |file| >= 4 && file[2] == Piece('"', name) then Some(file[3].text)
    else if |file| >= 6 && file[4] == Piece('"', name) then Some(file[5].text)
    else None
  }

  /** Why there is no excerpt. */
  lemma FileSaysWhy(c: Comment, view: FileView)
    ensures Attribute(FileElement(c, view), " missing=")
            == if view.OutsideTree? then Some("outside the repository")
               else if c.left || c.lineStart < 1 || Excerpt(c, view).Some? then None
               else Some(if view.NotThere? then "not in the worktree" else "the file is shorter")
  {
    NamesDiffer();
  }

  /** That the comment is on the old version. */
  lemma FileSaysSide(c: Comment, view: FileView)
    ensures Attribute(FileElement(c, view), " side=") == if c.left && !view.OutsideTree? then Some("LEFT") else None
  {
    NamesDiffer();
  }

  lemma NamesDiffer()
    ensures " missing=" != " side=" && " missing=" != " line=" && " missing=" != " note=" && " side=" != " line=" && " side=" != " note="
    ensures "" != " missing=" && "" != " side=" && "/" != " missing=" && "/" != " side="
    ensures "/file" != " missing=" && "/file" != " side="
  {}

  /** The lines of the excerpt. */
  lemma FileNumbers(c: Comment, view: FileView)
    requires Excerpt(c, view).Some?
    ensures exists quoted, first: nat ::
              && IsExcerpt(Excerpt(c, view).value, c, view.lines, quoted, first)
              && Attribute(FileElement(c, view), " line=") == Some(Text.Decimal(first) + "-" + Text.Decimal(first + |quoted| - 1))
  {
    WindowIs(c, view.lines);
    var quoted, first: nat := Quoted(c, view.lines), From(c);
    assert IsExcerpt(Excerpt(c, view).value, c, view.lines, quoted, first);
    FilledNumbers(c, quoted);
  }

  lemma FilledNumbers(c: Comment, quoted: seq<string>)
    requires c.lineStart >= 1 && quoted != []
    ensures Attribute(FilledFile(c, quoted), " line=") == Some(Span(From(c), From(c) + |quoted| - 1))
  {
    var file := FilledFile(c, quoted);
    assert file[2] == Piece('"', " line=") && file[3] == Piece('"', Span(From(c), From(c) + |quoted| - 1));
  }

  /** Where the file is too short to have one: those of the comment. */
  lemma ShortNumbers(c: Comment, view: FileView)
    requires view.Lines? && !c.left && c.lineStart >= 1 && Excerpt(c, view).None?
    ensures Attribute(FileElement(c, view), " line=")
            == Some(Text.Decimal(c.lineStart) + "-" + Text.Decimal(if c.lineEnd < c.lineStart then c.lineStart else c.lineEnd))
  {}

  lemma {:induction false} EscapeIsClean(x: string)
    ensures Clean(EscapeXML(x))
    decreases |x|
  {
    if x != "" { EscapeIsClean(x[1..]); }
  }

  lemma {:induction false} DecodeEscape(x: string)
    ensures Decode(EscapeXML(x)) == Some(x)
    decreases |x|
  {
    if x != "" {
      DecodeEscape(x[1..]);
      DecodeChar(x[0], EscapeXML(x[1..]));
      assert [x[0]] + x[1..] == x;
    }
  }

  /** The five entities are the predefined ones, and nothing else is changed. */
  lemma Entities(c: char)
    ensures EscapeXML("&") == "&amp;" && EscapeXML("<") == "&lt;" && EscapeXML(">") == "&gt;"
    ensures EscapeXML("\"") == "&quot;" && EscapeXML("'") == "&apos;"
    ensures c !in "&<>\"'" ==> EscapeXML([c]) == [c]
  {}

  lemma DecodeChar(c: char, rest: string)
    ensures Decode(EscapeChar(c) + rest) == Prefix([c], Decode(rest))
  {
    var s := EscapeChar(c) + rest;
    assert s[|EscapeChar(c)|..] == rest;
    assert EscapeChar(c) <= s;
    if c == '<' { assert !("&amp;" <= s) by { assert s[1] == 'l'; } }
    if c == '>' { assert s[1] == 'g'; }
    if c == '"' { assert s[1] == 'q'; }
    if c == '\'' { assert s[1] == 'a' && s[2] == 'p'; }
  }

  lemma {:induction false} EscapeConcat(a: string, b: string)
    ensures EscapeXML(a + b) == EscapeXML(a) + EscapeXML(b)
    decreases |a|
  {
    if a == "" {
      assert a + b == b;
    } else {
      assert (a + b)[1..] == a[1..] + b;
      EscapeConcat(a[1..], b);
    }
  }

  ghost predicate WellFormed(ps: seq<Piece>) {
    forall k :: 0 <= k < |ps| ==> IsMark(ps[k].mark) && Clean(ps[k].text)
  }

  lemma {:induction false} TextLengthOf(text: string, rest: string)
    requires Clean(text) && (rest != "" ==> IsMark(rest[0]))
    ensures TextLength(text + rest) == |text|
    decreases |text|
  {
    if text == "" {
      assert text + rest == rest;
    } else {
      assert (text + rest)[1..] == text[1..] + rest && (text + rest)[0] == text[0];
      TextLengthOf(text[1..], rest);
    }
  }

  lemma FirstPiece(p: Piece, rest: string)
    requires IsMark(p.mark) && Clean(p.text) && (rest != "" ==> IsMark(rest[0]))
    ensures Pieces([p.mark] + p.text + rest) == [p] + Pieces(rest)
  {
    TextLengthOf(p.text, rest);
    MarkedText(p.mark, p.text, rest);
    PiecesNext([p.mark] + p.text + rest, p.text, rest);
  }

  lemma MarkedText(mark: char, text: string, rest: string)
    ensures var s := [mark] + text + rest; s != "" && s[0] == mark && s[1..] == text + rest
  {}

  lemma PiecesNext(s: string, text: string, rest: string)
    requires s != "" && IsMark(s[0]) && s[1..] == text + rest && TextLength(s[1..]) == |text|
    requires rest != "" ==> IsMark(rest[0])
    ensures Pieces(s) == [Piece(s[0], text)] + Pieces(rest)
  {
    assert s[1..][..|text|] == text && s[1..][|text|..] == rest;
  }

  /** Laid-out pieces read back. */
  lemma {:induction false} PiecesOfRender(ps: seq<Piece>)
    requires WellFormed(ps)
    ensures Render(ps) != "" ==> IsMark(Render(ps)[0])
    ensures Pieces(Render(ps)) == ps && (Render(ps) == "" <==> ps == [])
    decreases |ps|
  {
    if ps != [] {
      var tail := ps[1..];
      assert WellFormed(tail) by { assert forall k :: 0 <= k < |tail| ==> tail[k] == ps[k + 1]; }
      PiecesOfRender(tail);
      FirstPiece(ps[0], Render(tail));
      assert [ps[0]] + tail == ps;
    }
  }

  lemma LabelsAreClean()
    ensures Clean("") && Clean("/") && Clean("\n") && Clean("file src=") && Clean("/file") && Clean(" line=")
    ensures Clean("review id=") && Clean(" author=") && Clean("comment") && Clean("/comment") && Clean("/review")
  {}

  lemma MessagesAreClean()
    ensures Clean(" missing=") && Clean("outside the repository") && Clean("not in the worktree") && Clean("the file is shorter")
  {}

  lemma CleanConcat(a: string, b: string)
    requires Clean(a) && Clean(b)
    ensures Clean(a + b)
  {
    forall i | 0 <= i < |a + b| ensures !IsMark((a + b)[i]) {
      assert (a + b)[i] == if i < |a| then a[i] else b[i - |a|];
    }
  }

  lemma NoteIsClean()
    ensures Clean(" side=") && Clean("LEFT") && Clean(" note=") && Clean(LEFT_NOTE)
  {
    CleanConcat("the comment is on the ", "old version of the file");
  }

  lemma EmptyIsWellFormed(c: Comment, more: seq<Piece>)
    requires WellFormed(more)
    ensures WellFormed(EmptyFile(c, more))
  {
    LabelsAreClean();
    EscapeIsClean(c.path);
  }

  lemma PairIsWellFormed(a: string, b: string)
    requires Clean(a) && Clean(b)
    ensures WellFormed([Piece('"', a), Piece('"', b)])
  {}

  lemma FourAreWellFormed(a: string, b: string, c: string, d: string)
    requires Clean(a) && Clean(b) && Clean(c) && Clean(d)
    ensures WellFormed([Piece('"', a), Piece('"', b), Piece('"', c), Piece('"', d)])
  {}

  lemma FilledIsWellFormed(c: Comment, quoted: seq<string>)
    requires c.lineStart >= 1 && quoted != []
    ensures WellFormed(FilledFile(c, quoted))
  {
    LabelsAreClean();
    EscapeIsClean(c.path);
    EscapeIsClean(Join(quoted));
  }

  lemma FileIsWellFormed(c: Comment, view: FileView)
    ensures WellFormed(FileElement(c, view))
  {
    if Excerpt(c, view).Some? {
      FilledIsWellFormed(c, Quoted(c, view.lines));
    } else if !view.OutsideTree? && c.left {
      NoteIsClean();
      FourAreWellFormed(" side=", "LEFT", " note=", LEFT_NOTE);
      EmptyIsWellFormed(c, [Piece('"', " side="), Piece('"', "LEFT"),
                            Piece('"', " note="), Piece('"', LEFT_NOTE)]);
    } else if view.OutsideTree? {
      MessagesAreClean();
      PairIsWellFormed(" missing=", "outside the repository");
      EmptyIsWellFormed(c, [Piece('"', " missing="), Piece('"', "outside the repository")]);
    } else if c.lineStart < 1 {
      EmptyIsWellFormed(c, []);
    } else if view.NotThere? {
      MessagesAreClean();
      PairIsWellFormed(" missing=", "not in the worktree");
      EmptyIsWellFormed(c, [Piece('"', " missing="), Piece('"', "not in the worktree")]);
    } else {
      LabelsAreClean();
      MessagesAreClean();
      FourAreWellFormed(" line=", Span(c.lineStart, End(c)), " missing=", "the file is shorter");
      EmptyIsWellFormed(c, [Piece('"', " line="), Piece('"', Span(c.lineStart, End(c))),
                            Piece('"', " missing="), Piece('"', "the file is shorter")]);
    }
  }

  lemma HeadAndTailAreWellFormed(c: Comment)
    ensures WellFormed(ReviewHead(c)) && WellFormed(ReviewTail(c))
  {
    LabelsAreClean();
    EscapeIsClean(c.id);
    EscapeIsClean(c.author);
    EscapeIsClean(c.body);
  }

  lemma WellFormedConcat(a: seq<Piece>, b: seq<Piece>)
    requires WellFormed(a) && WellFormed(b)
    ensures WellFormed(a + b)
  {}

  lemma {:induction false} ElementsAreWellFormed(comments: seq<Comment>, view: Comment -> FileView)
    ensures WellFormed(ReviewElements(comments, view))
    decreases |comments|
  {
    if comments != [] {
      var c := comments[0];
      HeadAndTailAreWellFormed(c);
      FileIsWellFormed(c, view(c));
      WellFormedConcat(ReviewHead(c), FileElement(c, view(c)));
      WellFormedConcat(ReviewHead(c) + FileElement(c, view(c)), ReviewTail(c));
      ElementsAreWellFormed(comments[1..], view);
      WellFormedConcat(ReviewElement(c, view(c)), ReviewElements(comments[1..], view));
    }
  }

  lemma ReadFilled(c: Comment, quoted: seq<string>)
    requires c.lineStart >= 1 && quoted != []
    ensures ReadExcerpt(FilledFile(c, quoted)) == Some("\n" + Join(quoted) + "\n")
  {
    var x := Join(quoted);
    EscapeConcat("\n" + x, "\n");
    EscapeConcat("\n", x);
    assert EscapeXML("\n") == "\n";
    DecodeEscape("\n" + x + "\n");
  }

  /** A `<file>` element hides no `<comment`, names its path and shows its excerpt. */
  lemma ReadFile(c: Comment, view: FileView)
    ensures var file := FileElement(c, view);
            |file| >= 2 && file[0] == Piece('<', "file src=") && file[1] == Piece('"', EscapeXML(c.path))
            && Piece('<', "comment") !in file && ReadExcerpt(file) == Excerpt(c, view)
  {
    if Excerpt(c, view).Some? { ReadFilled(c, Quoted(c, view.lines)); }
  }

  lemma {:induction false} FindPieceAt(a: seq<Piece>, p: Piece, b: seq<Piece>, i: nat)
    requires i <= |a| && p !in a
    ensures FindPiece(a + [p] + b, p, i) == |a|
    decreases |a| - i
  {
    if i < |a| {
      assert (a + [p] + b)[i] == a[i];
      FindPieceAt(a, p, b, i + 1);
    }
  }

  lemma TailStarts(c: Comment, before: seq<Piece>, more: seq<Piece>)
    requires Piece('<', "comment") !in before
    ensures FindPiece(before + ReviewTail(c) + more, Piece('<', "comment"), 0) == |before|
  {
    var after := ReviewTail(c)[1..] + more;
    assert before + ReviewTail(c) + more == before + [Piece('<', "comment")] + after;
    FindPieceAt(before, Piece('<', "comment"), after, 0);
  }

  lemma InTail(a: seq<Piece>, tail: seq<Piece>, more: seq<Piece>, k: nat)
    requires k < |tail|
    ensures (a + tail + more)[|a| + k] == tail[k]
  {}

  lemma TailRead(c: Comment, before: seq<Piece>, more: seq<Piece>)
    ensures IsTail(before + ReviewTail(c) + more, |before|)
    ensures (before + ReviewTail(c) + more)[|before| + 1].text == EscapeXML(c.body)
  {
    forall k | 0 <= k < 6 ensures (before + ReviewTail(c) + more)[|before| + k] == ReviewTail(c)[k] {
      InTail(before, ReviewTail(c), more, k);
    }
  }

  lemma HeadRead(c: Comment, file: seq<Piece>, after: seq<Piece>)
    requires |file| >= 2 && file[0] == Piece('<', "file src=")
    ensures var ps := ReviewHead(c) + file + after;
            IsHead(ps) && ps[6..6 + |file|] == file
            && ps[1].text == EscapeXML(c.id) && ps[3].text == EscapeXML(c.author) && ps[7] == file[1]
  {
    var ps := ReviewHead(c) + file + after;
    forall k | 0 <= k < 6 ensures ps[k] == ReviewHead(c)[k] {}
    assert ps[6] == file[0] && ps[7] == file[1];
  }

  lemma Layout(c: Comment, file: seq<Piece>, more: seq<Piece>)
    requires |file| >= 2 && file[0] == Piece('<', "file src=") && Piece('<', "comment") !in file
    ensures var ps, k := ReviewHead(c) + file + ReviewTail(c) + more, 6 + |file|;
            IsHead(ps) && IsTail(ps, k) && FindPiece(ps, Piece('<', "comment"), 0) == k && ps[6..k] == file
            && ps[1].text == EscapeXML(c.id) && ps[3].text == EscapeXML(c.author) && ps[7] == file[1]
            && ps[k + 1].text == EscapeXML(c.body)
  {
    var before := ReviewHead(c) + file;
    assert Piece('<', "comment") !in ReviewHead(c);
    TailStarts(c, before, more);
    TailRead(c, before, more);
    HeadRead(c, file, ReviewTail(c) + more);
    Regroup(before, ReviewTail(c), more);
  }

  lemma ReadOne(c: Comment, view: FileView, more: seq<Piece>)
    ensures ReadReview(ReviewElement(c, view) + more)
            == Some((Review(c.id, c.author, c.path, Excerpt(c, view), c.body), |ReviewElement(c, view)|))
  {
    ReadFile(c, view);
    Layout(c, FileElement(c, view), more);
    DecodeEscape(c.id);
    DecodeEscape(c.author);
    DecodeEscape(c.path);
    DecodeEscape(c.body);
  }

  lemma ReadFirst(first: seq<Piece>, rest: seq<Piece>, review: Review, reviews: seq<Review>)
    requires first != [] && ReadReview(first + rest) == Some((review, |first|))
    requires ReadReviews(rest) == Some(reviews)
    ensures ReadReviews(first + rest) == Some([review] + reviews)
  {
    assert (first + rest)[|first|..] == rest;
  }

  lemma ExpectedFirst(comments: seq<Comment>, view: Comment -> FileView)
    requires comments != []
    ensures Expected(comments, view) == [Expected(comments, view)[0]] + Expected(comments[1..], view)
  {}

  lemma Regroup(a: seq<Piece>, b: seq<Piece>, c: seq<Piece>)
    ensures a + b + c == a + (b + c) && (a + b)[|a|..] == b
  {}

  lemma {:induction false} ReadElements(comments: seq<Comment>, view: Comment -> FileView)
    ensures ReadReviews(ReviewElements(comments, view) + BLOCK_END) == Some(Expected(comments, view))
    decreases |comments|
  {
    if comments == [] {
      assert [] + BLOCK_END == BLOCK_END;
    } else {
      var c := comments[0];
      var element, rest := ReviewElement(c, view(c)), ReviewElements(comments[1..], view) + BLOCK_END;
      ReadOne(c, view(c), rest);
      ReadElements(comments[1..], view);
      ExpectedFirst(comments, view);
      ReadFirst(element, rest, Expected(comments, view)[0], Expected(comments[1..], view));
      Regroup(element, ReviewElements(comments[1..], view), BLOCK_END);
    }
  }

  lemma FrameIsWellFormed()
    ensures WellFormed(BLOCK_START) && WellFormed(BLOCK_END)
  {
    assert Clean("reviews") && Clean("/reviews");
    LabelsAreClean();
  }

  lemma ReadRendered(ps: seq<Piece>)
    requires WellFormed(ps) && BLOCK_START <= ps
    ensures ReadBlock(Render(ps)) == ReadReviews(ps[2..])
  {
    PiecesOfRender(ps);
  }

  /** A review as it is read is the comment, with the lines it points at. */
  ghost predicate IsReview(r: Review, c: Comment, view: FileView) {
    && r.id == c.id && r.author == c.author && r.path == c.path && r.body == c.body
    && (r.excerpt.Some? <==> view.Lines? && !c.left && c.lineStart >= 1 && |view.lines| >= 1 && |view.lines| >= c.lineStart - 3)
    && (r.excerpt.Some? ==> Shows(r.excerpt.value, c, view.lines))
  }

  /** For all comments and all files: the block reads back as exactly the claim's comments, each
      with its path and the excerpt it points at, in order and number. */
  lemma BlockRoundTrip(comments: seq<Comment>, view: Comment -> FileView)
    ensures ReadBlock(Block(comments, view)) == Some(Expected(comments, view)) && |Expected(comments, view)| == |comments|
    ensures forall k :: 0 <= k < |comments| ==> IsReview(Expected(comments, view)[k], comments[k], view(comments[k]))
  {
    BlockReads(comments, view);
    forall k | 0 <= k < |comments| ensures IsReview(Expected(comments, view)[k], comments[k], view(comments[k])) {
      ExcerptIs(comments[k], view(comments[k]));
    }
  }

  lemma BlockReads(comments: seq<Comment>, view: Comment -> FileView)
    ensures ReadBlock(Block(comments, view)) == Some(Expected(comments, view))
  {
    var elements := ReviewElements(comments, view);
    FrameIsWellFormed();
    ElementsAreWellFormed(comments, view);
    WellFormedConcat(elements, BLOCK_END);
    WellFormedConcat(BLOCK_START, elements + BLOCK_END);
    Regroup(BLOCK_START, elements, BLOCK_END);
    Regroup(BLOCK_START, elements + BLOCK_END, []);
    ReadRendered(BLOCK_START + (elements + BLOCK_END));
    ReadElements(comments, view);
  }

  // The builder

  lemma {:induction false} RenderConcat(a: seq<Piece>, b: seq<Piece>)
    ensures Render(a + b) == Render(a) + Render(b)
  {
    if a == [] {
      assert a + b == b;
    } else {
      assert (a + b)[0] == a[0] && (a + b)[1..] == a[1..] + b;
      RenderConcat(a[1..], b);
    }
  }

  function Flat(parts: seq<seq<Piece>>): seq<Piece> {
    if parts == [] then [] else parts[0] + Flat(parts[1..])
  }

  lemma {:induction false} FlatNext(parts: seq<seq<Piece>>, n: nat)
    requires n < |parts|
    ensures Flat(parts[..n + 1]) == Flat(parts[..n]) + parts[n]
    decreases n
  {
    if n == 0 {
      assert parts[..1] == [parts[0]] && [parts[0]][1..] == [];
    } else {
      assert parts[..n + 1][1..] == parts[1..][..n] && parts[..n][1..] == parts[1..][..n - 1];
      FlatNext(parts[1..], n - 1);
      Regroup(parts[0], Flat(parts[1..][..n - 1]), parts[n]);
    }
  }

  function Parts(comments: seq<Comment>, view: Comment -> FileView): (parts: seq<seq<Piece>>)
    ensures |parts| == |comments| && forall i :: 0 <= i < |parts| ==> parts[i] == ReviewElement(comments[i], view(comments[i]))
  {
    seq(|comments|, i requires 0 <= i < |comments| => ReviewElement(comments[i], view(comments[i])))
  }

  lemma {:induction false} ElementsAreParts(comments: seq<Comment>, view: Comment -> FileView)
    ensures ReviewElements(comments, view) == Flat(Parts(comments, view))
    decreases |comments|
  {
    if comments != [] {
      assert Parts(comments, view)[1..] == Parts(comments[1..], view);
      ElementsAreParts(comments[1..], view);
    }
  }

  /** One `<review>`, its three writes. */
  method WriteReview(b: string, c: Comment, view: FileView, ghost before: seq<Piece>, ghost part: seq<Piece>) returns (b': string)
    requires b == Render(before) && part == ReviewElement(c, view)
    ensures b' == Render(before + part)
  {
    var head, file, tail := ReviewHead(c), FileElement(c, view), ReviewTail(c);
    b' := Write(b, head, before);
    b' := Write(b', file, before + head);
    b' := Write(b', tail, before + head + file);
    Regroup(before, head, file);
    Regroup(before, head + file, tail);
  }

  method Write(b: string, ps: seq<Piece>, ghost before: seq<Piece>) returns (b': string)
    requires b == Render(before)
    ensures b' == Render(before + ps)
  {
    RenderConcat(before, ps);
    b' := b + Render(ps);
  }

  /** reviewsBlock: nothing without comments; else its introduction, whatever that says, and a block a
      reader takes apart into exactly them. */
  method ReviewsBlock(intro: string, comments: seq<Comment>, view: Comment -> FileView) returns (b: string)
    ensures comments == [] ==> b == ""
    ensures comments != [] ==> b == intro + Block(comments, view) && ReadBlock(b[|intro|..]) == Some(Expected(comments, view))
  {
    if |comments| == 0 { return ""; }
    ghost var parts := Parts(comments, view);
    b := WriteReviews(comments, view, parts);
    assert parts[..|parts|] == parts;
    ElementsAreParts(comments, view);
    b := Write(b, BLOCK_END, BLOCK_START + Flat(parts));
    BlockReads(comments, view);
    assert (intro + b)[|intro|..] == b;
    b := intro + b;
  }

  method WriteReviews(comments: seq<Comment>, view: Comment -> FileView, ghost parts: seq<seq<Piece>>) returns (b: string)
    requires |parts| == |comments| && forall i :: 0 <= i < |parts| ==> parts[i] == ReviewElement(comments[i], view(comments[i]))
    ensures b == Render(BLOCK_START + Flat(parts[..|comments|]))
  {
    b := Render(BLOCK_START);
    assert BLOCK_START + Flat(parts[..0]) == BLOCK_START;
    for n := 0 to |comments|
      invariant b == Render(BLOCK_START + Flat(parts[..n]))
    {
      b := WriteReview(b, comments[n], view(comments[n]), BLOCK_START + Flat(parts[..n]), parts[n]);
      FlatNext(parts, n);
      Regroup(BLOCK_START, Flat(parts[..n]), parts[n]);
    }
  }
}
