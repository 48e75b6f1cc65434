/** `mylexer.MythonTokenStream.generate_tokens` as a small-step machine.
    The source generator keeps its loop variables (`line`, `pos`) in the
    generator frame and its lexical state in attributes the parser changes
    between tokens (`start_mysuite`, `start_myexpr`).  Here `Pc` names the
    point where the generator is suspended together with its frame, so that
    each `Step` runs to the next `yield` or to the next point where the
    generator would read a line, and a mode switch made while it is
    suspended is seen exactly where the source sees it. */
module Lexer {
  import opened Errors
  import opened Text
  import opened Tokens
  import opened Capture
  import opened TokenStream

  /** The foreign recognisers: `tokenize.pseudoprog` (the span of group 1 of
      a match at `pos`), the `endprogs` closing a triple-quoted string on
      the same line (the end of the match), and pgen2's `operatorMap`. */
  datatype Recogniser = Recogniser(
    pseudo: (string, nat) -> Option<(nat, nat)>,
    tripleEnd: (string, string, nat) -> Option<nat>,
    opMap: string -> Option<int>)

  datatype Span = Match(start: nat, end: nat) | EmptyAtEnd | NoMatch

  /** A pseudo-token match.  The pattern can only match empty at the very
      end of the line (its `\Z` alternative); spans that fit neither shape
      cannot come from the pattern and count as no match. */
  function PseudoSpan(rec: Recogniser, line: string, pos: nat): (r: Span)
    ensures r.Match? ==> pos <= r.start < r.end <= |line|
  {
    match rec.pseudo(line, pos)
    case None => NoMatch
    case Some(sp) =>
      if pos <= sp.0 < sp.1 <= |line| then Match(sp.0, sp.1)
      else if pos <= sp.0 && sp.0 == sp.1 == |line| then EmptyAtEnd
      else NoMatch
  }

  const TABSIZE: int := 8

  /** The indentation stack: never empty. */
  type Indents = s: seq<int> | |s| >= 1 witness [0]

  predicate Increasing(s: seq<int>) {
    forall i, j :: 0 <= i < j < |s| ==> s[i] < s[j]
  }

  function Top(s: Indents): int {
    s[|s| - 1]
  }

  /** Where the generator is suspended, with its frame. */
  datatype Pc =
      /** At the top of `while 1`, about to read a line. */
    | LineStart
      /** In the token loop `while pos < max_pos`. */
    | Scanning(line: string, pos: nat)
      /** Just yielded the OP token `text` ending at `pos`. */
    | AfterOp(line: string, pos: nat, text: string)
      /** Just yielded an inline MYSUITE; resumes by clearing `in_mysuite`. */
    | AfterInline(line: string, pos: nat)
      /** Just yielded a MYEXPR; resumes by clearing `in_myexpr`. */
    | AfterExpr(line: string, pos: nat)
      /** Just yielded a block MYSUITE; resumes by clearing `in_mysuite` and
          processing the line that ended the block. */
    | AfterBlock(line: string)
      /** In the dedent loop for a line indented to `column`. */
    | Dedenting(line: string, pos: nat, column: int)
      /** Just yielded a comment-only line's COMMENT; its NL follows. */
    | PendingNL(line: string, pos: nat)
      /** At end of input with `n` DEDENTs still to yield. */
    | Closing(n: nat)
      /** ENDMARKER yielded: the generator is exhausted. */
    | Exhausted

  datatype Lexer = Lexer(
    lines: seq<string>,
    lnum: int,
    columnOffset: int,
    parenlev: int,
    continued: bool,
    indents: Indents,
    inMysuite: bool,
    inMyexpr: bool,
    openDelim: Option<string>,
    pc: Pc)

  /** The constructor's defaults with the two keyword arguments the parser
      passes. */
  function Init(lines: seq<string>, lnum: int, columnOffset: int): (lx: Lexer)
    ensures lx.indents == [0] && lx.parenlev == 0 && !lx.continued && lx.pc == LineStart
    ensures !lx.inMysuite && !lx.inMyexpr
  {
    Lexer(lines, lnum, columnOffset, 0, false, [0], false, false, None, LineStart)
  }

  /** `start_mysuite`. */
  function StartMysuite(lx: Lexer): (r: Lexer)
    ensures r.inMysuite && r == lx.(inMysuite := true)
  {
    lx.(inMysuite := true)
  }

  /** `start_myexpr`: records the delimiter token's text. */
  function StartMyexpr(lx: Lexer, delim: Token): (r: Lexer)
    ensures r.inMyexpr && r.openDelim == Some(delim.text) && r == lx.(inMyexpr := true, openDelim := Some(delim.text))
  {
    lx.(inMyexpr := true, openDelim := Some(delim.text))
  }

  /** What one resumption of the generator does. */
  datatype Out = Emit(tok: Token, next: Lexer) | Silent(next: Lexer) | Raise(err: Error) | Stop

  // --------------------------------------------------------------- measure

  function Rem(line: string, pos: nat): nat {
    if pos <= |line| then |line| - pos else 0
  }

  function Mline(lx: Lexer): nat {
    |lx.lines| + (if lx.pc.Closing? || lx.pc.Exhausted? then 0 else 1)
  }

  function Mpc(lx: Lexer): nat {
    match lx.pc
    case LineStart => 0
    case PendingNL(_, _) => 1
    case Scanning(l, p) => 3 * Rem(l, p) + 2
    case AfterOp(l, p, _) => 3 * Rem(l, p) + 4
    case AfterInline(l, p) => 3 * Rem(l, p) + 3
    case AfterExpr(l, p) => 3 * Rem(l, p) + 3
    case Dedenting(l, p, _) => 3 * Rem(l, p) + 3 + |lx.indents|
    case AfterBlock(l) => 3 * |l| + 5 + |lx.indents|
    case Closing(n) => n + 1
    case Exhausted => 0
  }

  /** Every step that does not stop makes progress. */
  predicate Below(a: Lexer, b: Lexer) {
    Mline(a) < Mline(b) || (Mline(a) == Mline(b) && Mpc(a) < Mpc(b))
  }

  predicate Progress(lx: Lexer, r: Out) {
    (r.Emit? || r.Silent?) ==> Below(r.next, lx)
  }

  // ------------------------------------------------------------------ steps

  function Tok(lx: Lexer, kind: int, text: string, s: Pos, e: Pos, src: string): Token {
    MakeToken(lx.columnOffset, kind, text, s, e, src)
  }

  /** `readline`: the next line or "", and the line number goes up either way. */
  function ReadLine(lx: Lexer): (r: (string, Lexer))
    ensures r.1 == lx.(lines := Read(lx.lines).1, lnum := lx.lnum + 1) && r.0 == Read(lx.lines).0
  {
    (Read(lx.lines).0, lx.(lines := Read(lx.lines).1, lnum := lx.lnum + 1))
  }

  /** The leading-whitespace loop: the indentation column and where the
      line's text starts.  Tabs go to the next multiple of the tab size with
      Python 2's integer division; a form feed resets the column. */
  function Indentation(line: string, pos: nat, column: int): (r: (int, nat))
    requires pos <= |line|
    ensures pos <= r.1 <= |line|
    ensures forall i :: pos <= i < r.1 ==> line[i] in " \t\U{000C}"
    ensures r.1 < |line| ==> line[r.1] !in " \t\U{000C}"
    ensures column >= 0 ==> r.0 >= 0
    decreases |line| - pos
  {
    if pos == |line| then (column, pos)
    else if line[pos] == ' ' then Indentation(line, pos + 1, column + 1)
    else if line[pos] == '\t' then Indentation(line, pos + 1, (column / TABSIZE + 1) * TABSIZE)
    else if line[pos] == '\U{000C}' then Indentation(line, pos + 1, 0)
    else (column, pos)
  }

  /** Resumption at `LineStart`: read a line, capture a block if one is
      due, else process the line. */
  function StartLine(lx: Lexer): (r: Out)
    requires lx.pc.LineStart?
    ensures Progress(lx, r)
  {
    var rl := ReadLine(lx);
    var line := rl.0;
    var lx1 := rl.1;
    if lx1.parenlev == 0 && lx1.inMysuite then BlockSuite(lx1, line) else ProcessLine(lx1, line)
  }

  const EmptySuitePrefix: string := "Empty mysuite block, starting on line "

  /** The MYSUITE block capture, for the line just read. */
  function BlockSuite(lx: Lexer, line: string): (r: Out)
    ensures (r.Emit? || r.Silent?) ==> r.next.pc.AfterBlock? && Left(r.next.pc.line, r.next.lines) < Left(line, lx.lines) + 1
    ensures (r.Emit? || r.Silent?) ==> Mline(r.next) <= Left(line, lx.lines)
    ensures (r.Emit? || r.Silent?) ==> r.next.indents == lx.indents && r.next.parenlev == lx.parenlev
  {
    var suiteLnum := lx.lnum;
    match ScanBlock(line, lx.lines)
    case EmptyToEof(_) =>
      Raise(SyntaxErr(EmptySuitePrefix + IntToDec(suiteLnum) + ", runs to end of file."))
    case NoIndent => Raise(AttributeErr)
    case Captured(b) =>
      var w := |b.ws|;
      if w <= Top(lx.indents) then
        Raise(SyntaxErr("Improper indentation level at line " + IntToDec(suiteLnum + b.first) + "; expected "
                        + IntToDec(Top(lx.indents)) + ", got " + IntToDec(w) + "."))
      else
        var tok := Tok(lx, MYSUITE, SuiteText(b.lines, w), Pos(suiteLnum, w), Pos(suiteLnum + |b.lines|, 0), Concat(b.lines));
        Emit(tok, lx.(lines := b.rest, lnum := suiteLnum + |b.lines|, pc := AfterBlock(b.term)))
  }

  /** The part of the loop body after any block capture: the indentation
      logic for a new logical line, or the continuation-line check. */
  function ProcessLine(lx: Lexer, line: string): (r: Out)
    ensures (r.Emit? || r.Silent?) ==> r.next.lines == lx.lines
    ensures (r.Emit? || r.Silent?) ==> r.next.pc.Closing? || Mpc(r.next) <= 3 * |line| + 4 + |lx.indents|
    ensures (r.Emit? || r.Silent?) ==> !r.next.pc.Exhausted? && !r.next.pc.AfterBlock?
    ensures (r.Emit? || r.Silent?) ==> r.next.indents == lx.indents
                                       || (r.next.pc.Dedenting? && r.next.indents == lx.indents + [r.next.pc.column] && r.next.pc.column > Top(lx.indents))
  {
    var n := lx.lnum;
    if lx.parenlev == 0 && !lx.continued then
      if line == "" then Silent(lx.(pc := Closing(|lx.indents| - 1)))
      else
        var ind := Indentation(line, 0, 0);
        var column := ind.0;
        var pos := ind.1;
        if pos == |line| then Silent(lx.(pc := Closing(|lx.indents| - 1)))
        else if line[pos] == '#' then
          var comment := RStripNewlines(line[pos..]);
          Emit(Tok(lx, COMMENT, comment, Pos(n, pos), Pos(n, pos + |comment|), line), lx.(pc := PendingNL(line, pos + |comment|)))
        else if IsLineEnd(line[pos]) then
          Emit(Tok(lx, NL, line[pos..], Pos(n, pos), Pos(n, |line|), line), lx.(pc := LineStart))
        else if column > Top(lx.indents) then
          Emit(Tok(lx, INDENT, line[..pos], Pos(n, 0), Pos(n, pos), line),
               lx.(indents := lx.indents + [column], pc := Dedenting(line, pos, column)))
        else Silent(lx.(pc := Dedenting(line, pos, column)))
    else if line == "" then Raise(TokenErr("EOF in multi-line statement", n, 0))
    else Silent(lx.(continued := false, pc := Scanning(line, 0)))
  }

  /** One turn of the dedent loop. */
  function DedentStep(lx: Lexer, line: string, pos: nat, column: int): (r: Out)
    requires lx.pc == Dedenting(line, pos, column)
    ensures Progress(lx, r)
    ensures (r.Emit? || r.Silent?) ==> r.next.indents == lx.indents || r.next.indents == lx.indents[..|lx.indents| - 1]
  {
    var k := |lx.indents|;
    if column < Top(lx.indents) then
      if column !in lx.indents then
        Raise(IndentationErr("unindent does not match any outer indentation level", lx.lnum, pos))
      else
        ghost var i :| 0 <= i < k && lx.indents[i] == column;
        assert i < k - 1;
        Emit(Tok(lx, DEDENT, "", Pos(lx.lnum, pos), Pos(lx.lnum, pos), line), lx.(indents := lx.indents[..k - 1]))
    else Silent(lx.(pc := Scanning(line, pos)))
  }

  /** `''`, `'"'` and the string prefixes of Python 2.7, in any case. */
  predicate IsStringPrefix(p: string) {
    var l := Lower(p);
    l == "" || l == "r" || l == "u" || l == "ur" || l == "b" || l == "br"
  }

  function Lower(s: string): (r: string)
    ensures |r| == |s|
  {
    if s == [] then []
    else [if 'A' <= s[0] <= 'Z' then (s[0] as int + 32) as char else s[0]] + Lower(s[1..])
  }

  /** `token in triple_quoted`: a prefix followed by three quotes. */
  predicate IsTripleOpener(token: string) {
    |token| >= 3 && (token[|token| - 3..] == "'''" || token[|token| - 3..] == "\"\"\"") && IsStringPrefix(token[..|token| - 3])
  }

  /** An element of `single_quoted`: a prefix followed by one quote. */
  predicate IsSingleQuote(s: string) {
    |s| >= 1 && (s[|s| - 1] == '\'' || s[|s| - 1] == '"') && IsStringPrefix(s[..|s| - 1])
  }

  function Take(s: string, n: nat): string {
    if n <= |s| then s[..n] else s
  }

  /** A pseudo-token spanning `[start, end)` of the line. */
  function TokenStep(rec: Recogniser, lx: Lexer, line: string, start: nat, end: nat): (r: Out)
    requires start < end <= |line|
    ensures (r.Emit? || r.Silent?) ==> r.next.lines == lx.lines
    ensures (r.Emit? || r.Silent?) ==> (r.next.pc.Scanning? && r.next.pc.line == line && end <= r.next.pc.pos <= |line|)
                                       || r.next.pc == AfterOp(line, end, line[start..end])
    ensures (r.Emit? || r.Silent?) ==> r.next.indents == lx.indents
  {
    var token := line[start..end];
    var initial := line[start];
    var n := lx.lnum;
    var spos := Pos(n, start);
    var epos := Pos(n, end);
    var next := lx.(pc := Scanning(line, end));
    if IsDigit(initial) || (initial == '.' && token != ".") then Emit(Tok(lx, NUMBER, token, spos, epos, line), next)
    else if IsLineEnd(initial) then Emit(Tok(lx, if lx.parenlev > 0 then NL else NEWLINE, token, spos, epos, line), next)
    else if initial == '#' then Emit(Tok(lx, COMMENT, token, spos, epos, line), next)
    else if IsTripleOpener(token) then
      match rec.tripleEnd(token, line, end)
      case Some(e) =>
        if end <= e <= |line| then Emit(Tok(lx, STRING, line[start..e], spos, Pos(n, e), line), lx.(pc := Scanning(line, e)))
        else Raise(Unmodelled)
      case None => Raise(Unmodelled)
    else if IsSingleQuote([initial]) || IsSingleQuote(Take(token, 2)) || IsSingleQuote(Take(token, 3)) then
      if token[|token| - 1] == '\n' then Raise(Unmodelled)
      else Emit(Tok(lx, STRING, token, spos, epos, line), next)
    else if IsNameStart(initial) then Emit(Tok(lx, NAME, token, spos, epos, line), next)
    else if initial == '\\' then Silent(next.(continued := true))
    else
      var lev := if initial in "([{" then lx.parenlev + 1 else if initial in "}])" then lx.parenlev - 1 else lx.parenlev;
      Emit(Tok(lx, OP, token, spos, epos, line), lx.(parenlev := lev, pc := AfterOp(line, end, token)))
  }

  /** One turn of the token loop. */
  function ScanStep(rec: Recogniser, lx: Lexer, line: string, pos: nat): (r: Out)
    requires lx.pc == Scanning(line, pos)
    ensures Progress(lx, r)
    ensures (r.Emit? || r.Silent?) ==> r.next.indents == lx.indents
  {
    var n := lx.lnum;
    if pos >= |line| then Silent(lx.(pc := LineStart))
    else
      match PseudoSpan(rec, line, pos)
      case Match(s, e) => TokenStep(rec, lx, line, s, e)
      case EmptyAtEnd => Raise(IndexErr)
      case NoMatch =>
        if line[pos] == '!' then Emit(Tok(lx, BANG, "!", Pos(n, pos), Pos(n, pos + 1), line), lx.(pc := Scanning(line, pos + 1)))
        else Emit(Tok(lx, ERRORTOKEN, [line[pos]], Pos(n, pos), Pos(n, pos + 1), line), lx.(pc := Scanning(line, pos + 1)))
  }

  /** The generator resumed after yielding an OP: an inline MYSUITE after a
      ':' at bracket depth 0, or a MYEXPR capture. */
  function AfterOpStep(lx: Lexer, line: string, pos: nat, text: string): (r: Out)
    requires lx.pc == AfterOp(line, pos, text)
    ensures Progress(lx, r)
    ensures (r.Emit? || r.Silent?) ==> r.next.indents == lx.indents
  {
    if text == ":" && lx.inMysuite && lx.parenlev == 0 then InlineStep(lx, line, pos)
    else if lx.inMyexpr then
      match lx.openDelim
      case None => Raise(AttributeErr)
      case Some(d) =>
        match Closer(d)
        case None => Raise(KeyErr)
        case Some(cl) => ExprSuite(lx, line, pos, d[0], cl)
    else Silent(lx.(pc := Scanning(line, pos)))
  }

  /** A MYSUITE whose body follows the colon on the same line. */
  function InlineStep(lx: Lexer, line: string, pos: nat): (r: Out)
    requires lx.pc == AfterOp(line, pos, ":")
    ensures Progress(lx, r)
    ensures (r.Emit? || r.Silent?) ==> r.next.indents == lx.indents
  {
    match InlineSuite(line, pos)
    case None => Silent(lx.(pc := Scanning(line, pos)))
    case Some(c) =>
      var endCol := pos + |RStripNewlines(Suffix(line, pos))|;
      var next := lx.(pc := AfterInline(line, c.1 + |c.0|));
      InlineBelow(lx, line, pos, c.1 + |c.0|);
      Emit(Tok(lx, MYSUITE, c.0, Pos(lx.lnum, c.1), Pos(lx.lnum, endCol), line), next)
  }

  lemma InlineBelow(lx: Lexer, line: string, pos: nat, e: nat)
    requires lx.pc == AfterOp(line, pos, ":") && pos <= e <= |line|
    ensures Below(lx.(pc := AfterInline(line, e)), lx)
  {
    assert Rem(line, e) <= Rem(line, pos);
  }

  /** The MYEXPR capture from just after the opener at `pos`.  The text is
      joined as the source joins it, the middle lines being `lns[1:-2]`. */
  function ExprSuite(lx: Lexer, line: string, pos: nat, op: char, cl: char): (r: Out)
    requires lx.pc.AfterOp? && lx.pc.line == line && lx.pc.pos == pos
    ensures Progress(lx, r)
    ensures (r.Emit? || r.Silent?) ==> r.next.indents == lx.indents
  {
    match ScanExpr(line, pos, lx.lines, op, cl, 1)
    case ExprDiverges => Raise(Diverges)
    case ExprDone(read, last, q, rest) =>
      var lns := [line] + read;
      var lev := if cl in "}])" then lx.parenlev - 1 else lx.parenlev;
      var tok := Tok(lx, MYEXPR, ExprTextAsWritten(lns, pos, q), Pos(lx.lnum, pos), Pos(lx.lnum + |read|, q), Concat(lns));
      Emit(tok, lx.(lines := rest, lnum := lx.lnum + |read|, parenlev := lev, pc := AfterExpr(last, q)))
  }

  /** Resume the generator once. */
  function Step(rec: Recogniser, lx: Lexer): (r: Out)
    ensures Progress(lx, r)
    ensures r.Stop? <==> lx.pc.Exhausted?
  {
    var n := lx.lnum;
    match lx.pc
    case LineStart => StartLine(lx)
    case Scanning(line, pos) => ScanStep(rec, lx, line, pos)
    case AfterOp(line, pos, text) => AfterOpStep(lx, line, pos, text)
    case AfterInline(line, pos) => Silent(lx.(inMysuite := false, pc := Scanning(line, pos)))
    case AfterExpr(line, pos) => Silent(lx.(inMyexpr := false, openDelim := None, pc := Scanning(line, pos)))
    case AfterBlock(line) => BlockStep(lx, line)
    case Dedenting(line, pos, column) => DedentStep(lx, line, pos, column)
    case PendingNL(line, pos) =>
      Emit(Tok(lx, NL, Suffix(line, pos), Pos(n, pos), Pos(n, |line|), line), lx.(pc := LineStart))
    case Closing(k) => CloseStep(lx, k)
    case Exhausted => Stop
  }

  /** Resuming after a MYSUITE block: the line that ended it is processed
      as a fresh line. */
  function BlockStep(lx: Lexer, line: string): (r: Out)
    requires lx.pc == AfterBlock(line)
    ensures Progress(lx, r) && !r.Stop?
  {
    var lx1 := lx.(inMysuite := false);
    assert Mline(lx1) == Mline(lx) && Mpc(lx1) == Mpc(lx);
    ProcessLine(lx1, line)
  }

  /** End of input: the pending DEDENTs, then ENDMARKER. */
  function CloseStep(lx: Lexer, k: nat): (r: Out)
    requires lx.pc == Closing(k)
    ensures Progress(lx, r) && r.Emit?
  {
    var n := lx.lnum;
    if k > 0 then Emit(Tok(lx, DEDENT, "", Pos(n, 0), Pos(n, 0), ""), lx.(pc := Closing(k - 1)))
    else Emit(Tok(lx, ENDMARKER, "", Pos(n, 0), Pos(n, 0), ""), lx.(pc := Exhausted))
  }

  // -------------------------------------------------------------- consumers

  /** `next(generator)`: resume until the next `yield`. */
  function NextRaw(rec: Recogniser, lx: Lexer): (r: Result<(Token, Lexer)>)
    ensures r.Ok? ==> Below(r.value.1, lx)
    decreases Mline(lx), Mpc(lx)
  {
    match Step(rec, lx)
    case Emit(t, nx) => Ok((t, nx))
    case Silent(nx) => NextRaw(rec, nx)
    case Raise(e) => Err(e)
    case Stop => Err(StopIter)
  }

  /** pgen2's operator kinds for OP tokens the map knows. */
  function ConvertOp(rec: Recogniser, t: Token): (r: Token)
    ensures r.text == t.text && r.start == t.start && r.end == t.end && r.source == t.source
    ensures t.kind != OP ==> r == t
  {
    if t.kind == OP then
      match rec.opMap(t.text)
      case Some(k) => t.(kind := k)
      case None => t
    else t
  }

  /** The loop of `MythonTokenStream.tokenize`: the next token the
      generator yields that is neither NL nor COMMENT. */
  function SkipTrivia(rec: Recogniser, lx: Lexer): (r: Result<(Token, Lexer)>)
    ensures r.Ok? ==> r.value.0.kind != NL && r.value.0.kind != COMMENT
    ensures r.Ok? ==> Below(r.value.1, lx)
    ensures NextRaw(rec, lx).Ok? && NextRaw(rec, lx).value.0.kind != NL && NextRaw(rec, lx).value.0.kind != COMMENT ==>
              r == NextRaw(rec, lx)
    ensures NextRaw(rec, lx).Err? ==> r == NextRaw(rec, lx)
    decreases Mline(lx), Mpc(lx)
  {
    match NextRaw(rec, lx)
    case Err(e) => Err(e)
    case Ok(p) =>
      if p.0.kind == NL || p.0.kind == COMMENT then SkipTrivia(rec, p.1)
      else Ok(p)
  }

  /** `MythonTokenStream.tokenize`: the next non-trivia token, with
      operator kinds converted. */
  function Tokenize(rec: Recogniser, lx: Lexer): (r: Pulled<Lexer>)
    ensures SkipTrivia(rec, lx).Err? <==> r.PullFailed?
    ensures r.Pulled? ==> r.tok == ConvertOp(rec, SkipTrivia(rec, lx).value.0) && r.rest == SkipTrivia(rec, lx).value.1
  {
    match SkipTrivia(rec, lx)
    case Err(e) => PullFailed(e)
    case Ok(p) => Pulled(ConvertOp(rec, p.0), p.1)
  }
}
