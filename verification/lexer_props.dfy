/** What the Mython lexer guarantees, stated over runs of its steps. */
module LexerProps {
  import opened Errors
  import opened Text
  import opened Tokens
  import opened Capture
  import opened Lexer

  /** `k` resumptions of the generator and the tokens they yield. */
  function Run(rec: Recogniser, lx: Lexer, k: nat): Result<(seq<Token>, Lexer)>
    decreases k
  {
    if k == 0 then Ok(([], lx))
    else
      match Step(rec, lx)
      case Emit(t, nx) =>
        var r :- Run(rec, nx, k - 1);
        Ok(([t] + r.0, r.1))
      case Silent(nx) => Run(rec, nx, k - 1)
      case Raise(e) => Err(e)
      case Stop => Err(StopIter)
  }

  // ------------------------------------------------------ indentation stack

  lemma PushKeepsIncreasing(s: seq<int>, c: int)
    requires Increasing(s) && |s| >= 1 && c > s[|s| - 1]
    ensures Increasing(s + [c])
  {
    var t := s + [c];
    forall i, j | 0 <= i < j < |t|
      ensures t[i] < t[j]
    {
      if j == |s| {
        assert t[i] == s[i];
        if i < |s| - 1 {
          assert s[i] < s[|s| - 1];
        }
      }
    }
  }

  /** The stack stays strictly increasing and its bottom entry never changes. */
  lemma StepKeepsIndents(rec: Recogniser, lx: Lexer)
    requires Increasing(lx.indents)
    ensures var r := Step(rec, lx);
            (r.Emit? || r.Silent?) ==> Increasing(r.next.indents) && r.next.indents[0] == lx.indents[0]
  {
    var r := Step(rec, lx);
    if r.Emit? || r.Silent? {
      var k := |lx.indents|;
      if r.next.indents == lx.indents + [r.next.indents[|r.next.indents| - 1]] {
        if r.next.indents != lx.indents {
          PushKeepsIncreasing(lx.indents, Top(r.next.indents));
        }
      } else if r.next.indents == lx.indents[..k - 1] {
      }
    }
  }

  /** A deeper line pushes its column and yields one INDENT holding its
      leading whitespace; the dedent loop then finds nothing to do. */
  lemma {:induction false} DeeperLinePushes(rec: Recogniser, lx: Lexer)
    requires lx.pc.LineStart? && lx.lines != [] && lx.parenlev == 0 && !lx.continued && !lx.inMysuite
    requires var ind := Indentation(lx.lines[0], 0, 0);
             ind.1 < |lx.lines[0]| && lx.lines[0][ind.1] != '#' && !IsLineEnd(lx.lines[0][ind.1])
             && ind.0 > Top(lx.indents)
    ensures var line := lx.lines[0];
            var ind := Indentation(line, 0, 0);
            var n := lx.lnum + 1;
            var r := Step(rec, lx);
            && r.Emit?
            && r.tok == MakeToken(lx.columnOffset, INDENT, line[..ind.1], Pos(n, 0), Pos(n, ind.1), line)
            && r.next.indents == lx.indents + [ind.0]
            && r.next.pc == Dedenting(line, ind.1, ind.0)
            && Step(rec, r.next) == Silent(r.next.(pc := Scanning(line, ind.1)))
  {
  }

  /** On a strictly increasing stack, the entries above the one equal to
      `c` are exactly those greater than `c`. */
  lemma AboveColumn(s: seq<int>, c: int, i: nat)
    requires Increasing(s) && i < |s| && s[i] == c
    ensures forall j :: 0 <= j < |s| ==> (s[j] > c <==> j > i)
  {
  }

  /** A shallower line yields one DEDENT per stack entry above its column,
      popping them, and then scans the line with the column on top. */
  lemma {:induction false} DedentRun(rec: Recogniser, lx: Lexer, line: string, pos: nat, c: int, i: nat)
    requires lx.pc == Dedenting(line, pos, c)
    requires Increasing(lx.indents) && i < |lx.indents| && lx.indents[i] == c
    ensures var m := |lx.indents| - 1 - i;
            var dedent := MakeToken(lx.columnOffset, DEDENT, "", Pos(lx.lnum, pos), Pos(lx.lnum, pos), line);
            Run(rec, lx, m + 1) == Ok((Repeat(dedent, m), lx.(indents := lx.indents[..i + 1], pc := Scanning(line, pos))))
    decreases |lx.indents| - i
  {
    var k := |lx.indents|;
    var dedent := MakeToken(lx.columnOffset, DEDENT, "", Pos(lx.lnum, pos), Pos(lx.lnum, pos), line);
    assert Step(rec, lx) == DedentStep(lx, line, pos, c);
    if i == k - 1 {
      assert lx.indents[..i + 1] == lx.indents;
      assert DedentStep(lx, line, pos, c) == Silent(lx.(pc := Scanning(line, pos)));
      assert Run(rec, lx, 1) == Run(rec, lx.(pc := Scanning(line, pos)), 0);
    } else {
      assert c < Top(lx.indents);
      assert c in lx.indents;
      var lx' := lx.(indents := lx.indents[..k - 1]);
      assert DedentStep(lx, line, pos, c) == Emit(dedent, lx');
      assert Increasing(lx'.indents);
      DedentRun(rec, lx', line, pos, c, i);
      assert lx'.indents[..i + 1] == lx.indents[..i + 1];
      var m := k - 1 - i;
      assert Repeat(dedent, m) == [dedent] + Repeat(dedent, m - 1);
    }
  }

  /** A column missing from the stack is an IndentationError at once. */
  lemma UnknownColumnFails(rec: Recogniser, lx: Lexer, line: string, pos: nat, c: int)
    requires lx.pc == Dedenting(line, pos, c) && c < Top(lx.indents) && c !in lx.indents
    ensures Step(rec, lx) == Raise(IndentationErr("unindent does not match any outer indentation level", lx.lnum, pos))
  {
  }

  // ---------------------------------------------------------- end of input

  /** From `Closing(n)`: `n` DEDENTs at column 0, one ENDMARKER, then the
      generator is exhausted. */
  lemma {:induction false} ClosingRun(rec: Recogniser, lx: Lexer, n: nat)
    requires lx.pc == Closing(n)
    ensures var dedent := MakeToken(lx.columnOffset, DEDENT, "", Pos(lx.lnum, 0), Pos(lx.lnum, 0), "");
            var end := MakeToken(lx.columnOffset, ENDMARKER, "", Pos(lx.lnum, 0), Pos(lx.lnum, 0), "");
            Run(rec, lx, n + 1) == Ok((Repeat(dedent, n) + [end], lx.(pc := Exhausted)))
    ensures Step(rec, lx.(pc := Exhausted)) == Stop
    decreases n
  {
    var dedent := MakeToken(lx.columnOffset, DEDENT, "", Pos(lx.lnum, 0), Pos(lx.lnum, 0), "");
    var end := MakeToken(lx.columnOffset, ENDMARKER, "", Pos(lx.lnum, 0), Pos(lx.lnum, 0), "");
    if n == 0 {
      assert Step(rec, lx) == Emit(end, lx.(pc := Exhausted));
      assert Run(rec, lx.(pc := Exhausted), 0) == Ok(([], lx.(pc := Exhausted)));
      assert Repeat(dedent, 0) + [end] == [end] + [];
    } else {
      var lx' := lx.(pc := Closing(n - 1));
      assert Step(rec, lx) == Emit(dedent, lx');
      ClosingRun(rec, lx', n - 1);
      assert lx'.(pc := Exhausted) == lx.(pc := Exhausted);
      assert Repeat(dedent, n) + [end] == [dedent] + (Repeat(dedent, n - 1) + [end]);
    }
  }

  /** At end of input, outside brackets and continuations, the lexer yields
      exactly `len(indents) - 1` DEDENTs and one ENDMARKER. */
  lemma {:induction false} EndOfInput(rec: Recogniser, lx: Lexer)
    requires lx.pc.LineStart? && lx.lines == [] && lx.parenlev == 0 && !lx.continued && !lx.inMysuite
    ensures var lx1 := lx.(lnum := lx.lnum + 1, pc := Closing(|lx.indents| - 1));
            var dedent := MakeToken(lx.columnOffset, DEDENT, "", Pos(lx.lnum + 1, 0), Pos(lx.lnum + 1, 0), "");
            var end := MakeToken(lx.columnOffset, ENDMARKER, "", Pos(lx.lnum + 1, 0), Pos(lx.lnum + 1, 0), "");
            && Step(rec, lx) == Silent(lx1)
            && Run(rec, lx, |lx.indents| + 1) == Ok((Repeat(dedent, |lx.indents| - 1) + [end], lx1.(pc := Exhausted)))
  {
    var lx1 := lx.(lnum := lx.lnum + 1, pc := Closing(|lx.indents| - 1));
    assert Step(rec, lx) == Silent(lx1);
    ClosingRun(rec, lx1, |lx.indents| - 1);
  }

  // ------------------------------------------------- blank and comment lines

  /** Outside a pending block capture, a line-start step reads the next line
      and processes it. */
  lemma ReadsLine(rec: Recogniser, lx: Lexer)
    requires lx.pc.LineStart? && lx.lines != [] && !(lx.parenlev == 0 && lx.inMysuite)
    ensures Step(rec, lx) == ProcessLine(lx.(lines := lx.lines[1..], lnum := lx.lnum + 1), lx.lines[0])
  {
    assert Step(rec, lx) == StartLine(lx);
  }

  /** A blank line (whitespace and a line end) yields one NL and leaves the
      stack alone. */
  lemma {:induction false} BlankLineNL(rec: Recogniser, lx: Lexer)
    requires lx.pc.LineStart? && lx.lines != [] && lx.parenlev == 0 && !lx.continued && !lx.inMysuite
    requires var ind := Indentation(lx.lines[0], 0, 0);
             ind.1 < |lx.lines[0]| && IsLineEnd(lx.lines[0][ind.1])
    ensures var line := lx.lines[0];
            var p := Indentation(line, 0, 0).1;
            var n := lx.lnum + 1;
            Step(rec, lx) == Emit(MakeToken(lx.columnOffset, NL, line[p..], Pos(n, p), Pos(n, |line|), line),
                                  lx.(lines := lx.lines[1..], lnum := n))
  {
    ReadsLine(rec, lx);
  }

  /** A comment-only line yields its COMMENT (line end stripped) and leaves
      the stack alone; the rest of the line is the pending NL that
      `PendingLineEnd` emits next.  `ReadsLine` brings a line-start step
      here. */
  lemma CommentLine(lx: Lexer, line: string)
    requires lx.parenlev == 0 && !lx.continued
    requires var ind := Indentation(line, 0, 0);
             ind.1 < |line| && line[ind.1] == '#'
    ensures var p := Indentation(line, 0, 0).1;
            var comment := RStripNewlines(line[p..]);
            var q := p + |comment|;
            && q <= |line|
            && line[p..] == comment + line[q..]
            && ProcessLine(lx, line) == Emit(MakeToken(lx.columnOffset, COMMENT, comment, Pos(lx.lnum, p), Pos(lx.lnum, q), line),
                                          lx.(pc := PendingNL(line, q)))
  {
    StripSplit(line, Indentation(line, 0, 0).1);
  }

  /** The NL after a comment: the rest of the line, up to its end. */
  lemma PendingLineEnd(rec: Recogniser, lx: Lexer, line: string, q: nat)
    requires lx.pc == PendingNL(line, q) && q <= |line|
    ensures Step(rec, lx) == Emit(MakeToken(lx.columnOffset, NL, line[q..], Pos(lx.lnum, q), Pos(lx.lnum, |line|), line),
                                  lx.(pc := LineStart))
  {
    assert Suffix(line, q) == line[q..];
  }

  /** `tokenize` hands the parser no NL or COMMENT token, provided the
      operator map does not produce those kinds. */
  lemma TokenizeDropsTrivia(rec: Recogniser, lx: Lexer)
    requires forall s :: rec.opMap(s).Some? ==> rec.opMap(s).value != NL && rec.opMap(s).value != COMMENT
    ensures var r := Tokenize(rec, lx);
            r.Pulled? ==> r.tok.kind != NL && r.tok.kind != COMMENT
  {
  }

  // ---------------------------------------------------------- capture modes

  /** A block capture: at the start of a line, outside brackets, with a
      suite pending.  The errors, and on success one MYSUITE token whose
      text is the block with its indent stripped, starting at the block's
      first line and indent width and ending the number of captured lines
      later at column 0; resuming clears `in_mysuite` and goes on with the
      line that ended the block. */
  lemma {:induction false} BlockCapture(rec: Recogniser, lx: Lexer)
    requires lx.pc.LineStart? && lx.parenlev == 0 && lx.inMysuite
    ensures var line := Read(lx.lines).0;
            var rest := Read(lx.lines).1;
            var n := lx.lnum + 1;
            var r := Step(rec, lx);
            match ScanBlock(line, rest)
            case EmptyToEof(_) =>
              r == Raise(SyntaxErr("Empty mysuite block, starting on line " + IntToDec(n) + ", runs to end of file."))
            case NoIndent => r == Raise(AttributeErr)
            case Captured(b) =>
              if |b.ws| <= Top(lx.indents) then
                r == Raise(SyntaxErr("Improper indentation level at line " + IntToDec(n + b.first) + "; expected "
                                     + IntToDec(Top(lx.indents)) + ", got " + IntToDec(|b.ws|) + "."))
              else
                && r.Emit?
                && r.tok == MakeToken(lx.columnOffset, MYSUITE, SuiteText(b.lines, |b.ws|), Pos(n, |b.ws|),
                                      Pos(n + |b.lines|, 0), Concat(b.lines))
                && r.next == lx.(lines := b.rest, lnum := n + |b.lines|, pc := AfterBlock(b.term))
                && Step(rec, r.next) == ProcessLine(r.next.(inMysuite := false), b.term)
  {
  }

  /** After a ':' at bracket depth 0 with a suite pending, a blank rest of
      line leaves the suite pending for the block capture. */
  lemma InlineBlank(rec: Recogniser, lx: Lexer, line: string, pos: nat)
    requires lx.pc == AfterOp(line, pos, ":") && lx.inMysuite && lx.parenlev == 0
    requires IsBlank(Suffix(line, pos))
    ensures Step(rec, lx) == Silent(lx.(pc := Scanning(line, pos)))
  {
    assert Step(rec, lx) == AfterOpStep(lx, line, pos, ":");
  }

  /** After a ':' at bracket depth 0 with a suite pending, a non-blank rest
      of line becomes one MYSUITE token holding the stripped rest, from its
      first non-space character to the end of the line less its line end;
      the next resumption clears `in_mysuite` and scans on after it. */
  lemma InlineCapture(lx: Lexer, line: string, pos: nat)
    requires lx.pc == AfterOp(line, pos, ":")
    requires !IsBlank(Suffix(line, pos))
    ensures InlineSuite(line, pos).Some?
    ensures var c := InlineSuite(line, pos).value;
            && c.0 == Strip(Suffix(line, pos))
            && c.0 == line[c.1..c.1 + |c.0|]
            && InlineStep(lx, line, pos)
               == Emit(MakeToken(lx.columnOffset, MYSUITE, c.0, Pos(lx.lnum, c.1),
                                 Pos(lx.lnum, pos + |RStripNewlines(Suffix(line, pos))|), line),
                       lx.(pc := AfterInline(line, c.1 + |c.0|)))
  {
    var c := InlineSuite(line, pos).value;
    assert c.0 == Strip(Suffix(line, pos)) && c.0 == line[c.1..c.1 + |c.0|] by {
      InlineSuiteText(line, pos);
    }
    InlineEmits(lx, line, pos);
  }

  lemma InlineEmits(lx: Lexer, line: string, pos: nat)
    requires lx.pc == AfterOp(line, pos, ":") && InlineSuite(line, pos).Some?
    ensures var c := InlineSuite(line, pos).value;
            InlineStep(lx, line, pos)
            == Emit(MakeToken(lx.columnOffset, MYSUITE, c.0, Pos(lx.lnum, c.1),
                              Pos(lx.lnum, pos + |RStripNewlines(Suffix(line, pos))|), line),
                    lx.(pc := AfterInline(line, c.1 + |c.0|)))
  {
  }

  /** The resumption after a ':' at bracket depth 0 with a suite pending is
      the inline capture. */
  lemma InlineResumes(rec: Recogniser, lx: Lexer, line: string, pos: nat)
    requires lx.pc == AfterOp(line, pos, ":") && lx.inMysuite && lx.parenlev == 0
    ensures Step(rec, lx) == InlineStep(lx, line, pos)
  {
    assert Step(rec, lx) == AfterOpStep(lx, line, pos, ":");
  }

  /** Resuming after an inline capture clears `in_mysuite`. */
  lemma AfterInlineClears(rec: Recogniser, lx: Lexer, line: string, pos: nat)
    requires lx.pc == AfterInline(line, pos)
    ensures Step(rec, lx) == Silent(lx.(inMysuite := false, pc := Scanning(line, pos)))
  {
  }

  /** A MYEXPR capture on one line: the token runs from just after the
      opener up to and including the closer that brings the depth from 1 to
      0, counting only the recorded opener and its partner; the closer takes
      back the bracket depth the opener added; the next resumption is the
      one `ExprEnds` describes. */
  lemma {:induction false} ExprCaptureOneLine(lx: Lexer, line: string, pos: nat, op: char, cl: char)
    requires lx.pc.AfterOp? && lx.pc.line == line && lx.pc.pos == pos && pos <= |line|
    requires ScanLine(line, pos, op, cl, 1).1 == 0
    ensures var q := ScanLine(line, pos, op, cl, 1).0;
            var r := ExprSuite(lx, line, pos, op, cl);
            && pos < q <= |line|
            && r.Emit? && r.tok.kind == MYEXPR && r.tok.text == line[pos..q]
            && line[q - 1] == cl
            && 1 + Balance(r.tok.text, op, cl) == 0
            && (forall k :: pos <= k < q ==> 1 + Balance(line[pos..k], op, cl) > 0)
            && r.next.parenlev == lx.parenlev - (if cl in "}])" then 1 else 0)
            && r.next.lines == lx.lines && r.next.lnum == lx.lnum
            && r.next.pc == AfterExpr(line, q)
  {
    var q := ScanLine(line, pos, op, cl, 1).0;
    assert ScanExpr(line, pos, lx.lines, op, cl, 1) == ExprDone([], line, q, lx.lines) && pos < q <= |line| && line[q - 1] == cl
           && 1 + Balance(line[pos..q], op, cl) == 0
           && (forall k :: pos <= k < q ==> 1 + Balance(line[pos..k], op, cl) > 0) by {
      ScanLineSpec(line, pos, op, cl, 1);
    }
    ExprOneLine(lx, line, pos, op, cl);
  }

  /** The capture of a MYEXPR that closes on its own line. */
  lemma ExprOneLine(lx: Lexer, line: string, pos: nat, op: char, cl: char)
    requires lx.pc.AfterOp? && lx.pc.line == line && lx.pc.pos == pos
    requires ScanExpr(line, pos, lx.lines, op, cl, 1) == ExprDone([], line, ScanLine(line, pos, op, cl, 1).0, lx.lines)
    requires pos < ScanLine(line, pos, op, cl, 1).0 <= |line|
    ensures var q := ScanLine(line, pos, op, cl, 1).0;
            var lev := if cl in "}])" then lx.parenlev - 1 else lx.parenlev;
            ExprSuite(lx, line, pos, op, cl)
            == Emit(Tok(lx, MYEXPR, line[pos..q], Pos(lx.lnum, pos), Pos(lx.lnum, q), Concat([line])),
                    lx.(parenlev := lev, pc := AfterExpr(line, q)))
  {
    var q := ScanLine(line, pos, op, cl, 1).0;
    assert [line] + [] == [line];
    assert ExprText([line], pos, q) == line[pos..q];
  }

  /** The resumption after a MYEXPR clears the capture state and goes on
      scanning from the end of the capture. */
  lemma ExprEnds(rec: Recogniser, lx: Lexer, line: string, q: nat)
    requires lx.pc == AfterExpr(line, q)
    ensures Step(rec, lx) == Silent(lx.(inMyexpr := false, openDelim := None, pc := Scanning(line, q)))
  {
  }

  /** With an opener recorded, the resumption after any other operator
      token is the MYEXPR capture. */
  lemma ExprStep(rec: Recogniser, lx: Lexer, line: string, pos: nat, text: string, cl: char)
    requires lx.pc == AfterOp(line, pos, text)
    requires !(text == ":" && lx.inMysuite && lx.parenlev == 0)
    requires lx.inMyexpr && lx.openDelim.Some? && Closer(lx.openDelim.value) == Some(cl)
    ensures Step(rec, lx) == ExprSuite(lx, line, pos, lx.openDelim.value[0], cl)
  {
    assert Step(rec, lx) == AfterOpStep(lx, line, pos, text);
  }

  /** An opener never closed before the end of input: the source's scan
      does not terminate. */
  lemma ExprDiverges(lx: Lexer, line: string, pos: nat, op: char, cl: char)
    requires lx.pc.AfterOp? && lx.pc.line == line && lx.pc.pos == pos
    requires ScanExpr(line, pos, lx.lines, op, cl, 1).ExprDiverges?
    ensures ExprSuite(lx, line, pos, op, cl) == Raise(Diverges)
  {
  }

  /** A MYEXPR capture: the token's text runs from just after the opener to
      the closer that balances it, the last character taken, over the
      captured lines with the second-to-last one left out (the source joins
      `myexpr_lns[1:-2]`).  A capture of at most two lines is the whole
      stretch, and it balances the opener. */
  lemma {:induction false} ExprCaptureText(lx: Lexer, line: string, pos: nat, op: char, cl: char)
    requires lx.pc.AfterOp? && lx.pc.line == line && lx.pc.pos == pos && pos <= |line|
    requires ScanExpr(line, pos, lx.lines, op, cl, 1).ExprDone?
    ensures var sc := ScanExpr(line, pos, lx.lines, op, cl, 1);
            var r := ExprSuite(lx, line, pos, op, cl);
            && r.Emit? && r.tok.kind == MYEXPR
            && 0 < sc.pos <= |sc.last| && sc.last[sc.pos - 1] == cl
            && IsStretch(r.tok.text, DropPenultimate([line] + sc.read), pos, sc.pos)
            && (|sc.read| <= 1 ==> IsStretch(r.tok.text, [line] + sc.read, pos, sc.pos))
            && (|sc.read| <= 1 ==> 1 + Balance(r.tok.text, op, cl) == 0)
  {
    var sc := ScanExpr(line, pos, lx.lines, op, cl, 1);
    var r := ExprSuite(lx, line, pos, op, cl);
    var lns := [line] + sc.read;
    assert r.Emit? && r.tok.kind == MYEXPR && r.tok.text == ExprTextAsWritten(lns, pos, sc.pos);
    ExprCapturedText(line, pos, lx.lines, op, cl);
    ExprAsWrittenFrom(line, pos, sc.read, sc.last, sc.pos);
    AsWrittenDropsPenultimate(lns, pos, sc.pos);
  }

  /** The lexer's MYEXPR for `f(` / `y` / `z)`: the source's join drops the
      middle line, so the token is "\nz)" although the captured lines read
      "f(\ny\nz)\n". */
  lemma ExprSuiteDropsMiddleLine(rec: Recogniser, lx: Lexer)
    requires lx.pc == AfterOp("f(\n", 2, "(") && lx.lines == ["y\n", "z)\n"]
    requires lx.inMyexpr && lx.openDelim == Some("(")
    ensures var r := Step(rec, lx);
            && r.Emit? && r.tok.kind == MYEXPR
            && r.tok.text == "\nz)" && r.tok.source == "f(\ny\nz)\n"
            && r.next.lines == [] && r.next.lnum == lx.lnum + 2
  {
    ExprTextDropsMiddleLine();
    ExprStep(rec, lx, "f(\n", 2, "(", ')');
    var lns := ["f(\n", "y\n", "z)\n"];
    assert [lns[0]] + lns[1..] == lns;
    assert Concat(lns) == "f(\n" + ("y\n" + ("z)\n" + ""));
  }

  /** A MYEXPR capture moves the line number on by the lines it read, leaves
      the rest of the input, and takes back the bracket depth of a `(`, `[`
      or `{` opener. */
  lemma ExprCaptureFrame(lx: Lexer, line: string, pos: nat, op: char, cl: char)
    requires lx.pc.AfterOp? && lx.pc.line == line && lx.pc.pos == pos
    requires ScanExpr(line, pos, lx.lines, op, cl, 1).ExprDone?
    ensures var sc := ScanExpr(line, pos, lx.lines, op, cl, 1);
            var r := ExprSuite(lx, line, pos, op, cl);
            && r.Emit?
            && r.tok.start.line == lx.lnum && r.tok.end.line == lx.lnum + |sc.read|
            && r.next.lnum == lx.lnum + |sc.read| && r.next.lines == sc.rest
            && lx.lines == sc.read + sc.rest
            && r.next.parenlev == lx.parenlev - (if cl in "}])" then 1 else 0)
            && r.next.pc == AfterExpr(sc.last, sc.pos)
  {
    ScanExprSplit(line, pos, lx.lines, op, cl, 1);
  }

  /** The opener's OP token adds exactly the bracket depth its closer takes
      back, so a whole MYEXPR leaves `parenlev` as it found it. */
  lemma ClosersBalanceParenlev(d: string)
    requires Closer(d).Some?
    ensures (d[0] in "([{") <==> (Closer(d).value in "}])")
    ensures d[0] !in "}])"
  {
  }

  /** The opener is scanned as an OP, the parser calls `start_myexpr` with
      it, and the capture closes: `parenlev` ends where it started. */
  lemma {:induction false} ExprKeepsParenlev(rec: Recogniser, lx: Lexer, line: string, s: nat, e: nat)
    requires lx.pc == Scanning(line, s) && s < |line|
    requires PseudoSpan(rec, line, s) == Match(s, e)
    requires line[s..e] in {"(", "[", "{", "<"}
    requires Step(rec, lx).Emit?
    ensures var r := Step(rec, lx);
            var lx2 := StartMyexpr(r.next, r.tok);
            var r2 := Step(rec, lx2);
            && r.tok.kind == OP && r.tok.text == line[s..e]
            && (!r.next.inMysuite || r.next.parenlev != 0 || line[s..e] != ":")
            && (r2.Emit? ==> r2.next.parenlev == lx.parenlev)
  {
    var d := line[s..e];
    assert d[0] == line[s];
    ClosersBalanceParenlev(d);
  }

  // ---------------------------------------------------------- other tokens

  /** A character the pseudo-token pattern does not match: '!' is one BANG
      of width 1, anything else one ERRORTOKEN; either way the scan moves
      on by one character. */
  lemma UnmatchedChar(rec: Recogniser, lx: Lexer, line: string, pos: nat)
    requires lx.pc == Scanning(line, pos) && pos < |line| && PseudoSpan(rec, line, pos).NoMatch?
    ensures var r := Step(rec, lx);
            && r.Emit?
            && r.tok.kind == (if line[pos] == '!' then BANG else ERRORTOKEN)
            && r.tok.text == [line[pos]]
            && r.tok.end.col == r.tok.start.col + 1 && r.tok.start.line == r.tok.end.line == lx.lnum
            && r.next == lx.(pc := Scanning(line, pos + 1))
  {
  }
}
