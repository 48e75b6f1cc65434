/** The two capture modes of the Mython lexer as pure scans over the lines
    still to be read: a MYSUITE block (lines indented past the quoting
    statement, taken verbatim) and a MYEXPR body (text up to the closer that
    balances the opener).  `readline` returns "" once the input is exhausted;
    here the input is a finite list of lines. */
module Capture {
  import opened Errors
  import opened Text

  /** One `readline()`: the next line, or "" at end of input. */
  function Read(lines: seq<string>): (r: (string, seq<string>))
    ensures lines == [] ==> r == ("", [])
    ensures lines != [] ==> r == (lines[0], lines[1..])
  {
    if lines == [] then ("", []) else (lines[0], lines[1..])
  }

  /** `readline` only ever returns "" at end of input. */
  predicate NoEmptyLines(lines: seq<string>) {
    forall i :: 0 <= i < |lines| ==> lines[i] != ""
  }

  /** The lines not yet consumed, given the current line: none once it is "". */
  function Avail(line: string, lines: seq<string>): seq<string> {
    if line == "" then [] else [line] + lines
  }

  /** A measure of how much input is left. */
  function Left(line: string, lines: seq<string>): nat {
    |lines| + (if line == "" then 0 else 1)
  }

  // ------------------------------------------------------- MYSUITE blocks

  datatype Blanks = Blanks(blanks: seq<string>, line: string, rest: seq<string>)

  /** `while line != '' and empty_line_pattern.match(line): append; readline`. */
  function SkipBlank(line: string, lines: seq<string>): (r: Blanks)
    ensures Left(r.line, r.rest) + |r.blanks| <= Left(line, lines)
    ensures line == "" || !IsBlank(line) ==> r == Blanks([], line, lines)
    decreases Left(line, lines)
  {
    if line == "" || !IsBlank(line) then Blanks([], line, lines)
    else if lines == [] then Blanks([line], "", [])
    else
      var b := SkipBlank(lines[0], lines[1..]);
      Blanks([line] + b.blanks, b.line, b.rest)
  }

  /** Every skipped line is blank and the line the run stops at is not. */
  lemma {:induction false} SkipBlankLines(line: string, lines: seq<string>)
    ensures var r := SkipBlank(line, lines);
            && (forall i :: 0 <= i < |r.blanks| ==> r.blanks[i] != "" && IsBlank(r.blanks[i]))
            && (r.line == "" || !IsBlank(r.line))
    decreases Left(line, lines)
  {
    if line != "" && IsBlank(line) && lines != [] {
      SkipBlankLines(lines[0], lines[1..]);
      var b := SkipBlank(lines[0], lines[1..]);
      var r := SkipBlank(line, lines);
      assert r.blanks == [line] + b.blanks;
      forall i | 0 <= i < |r.blanks|
        ensures r.blanks[i] != "" && IsBlank(r.blanks[i])
      {
        if i > 0 {
          assert r.blanks[i] == b.blanks[i - 1];
        }
      }
    }
  }

  /** The blank run loses no line. */
  lemma {:induction false} SkipBlankKeeps(line: string, lines: seq<string>)
    requires NoEmptyLines(lines)
    ensures var r := SkipBlank(line, lines);
            NoEmptyLines(r.rest) && Avail(line, lines) == r.blanks + Avail(r.line, r.rest)
    decreases Left(line, lines)
  {
    var r := SkipBlank(line, lines);
    if line == "" || !IsBlank(line) {
      assert r == Blanks([], line, lines);
    } else if lines == [] {
      assert r == Blanks([line], "", []);
    } else {
      var b := SkipBlank(lines[0], lines[1..]);
      assert r == Blanks([line] + b.blanks, b.line, b.rest);
      assert NoEmptyLines(b.rest) && lines == b.blanks + Avail(b.line, b.rest) by {
        assert NoEmptyLines(lines[1..]);
        SkipBlankKeeps(lines[0], lines[1..]);
        assert lines == [lines[0]] + lines[1..] == Avail(lines[0], lines[1..]);
      }
      assert Avail(line, lines) == [line] + lines;
      PrependKeeps(line, lines, b.blanks, Avail(b.line, b.rest));
    }
  }

  datatype Taken = Taken(taken: seq<string>, term: string, rest: seq<string>)

  /** The body loop: take lines while they start with `ws`, each followed by
      any blank lines. */
  function TakeIndented(ws: string, line: string, lines: seq<string>): (r: Taken)
    requires ws != ""
    ensures Left(r.term, r.rest) + |r.taken| <= Left(line, lines)
    decreases Left(line, lines)
  {
    if !StartsWith(line, ws) then Taken([], line, lines)
    else if lines == [] then Taken([line], "", [])
    else
      var b := SkipBlank(lines[0], lines[1..]);
      var t := TakeIndented(ws, b.line, b.rest);
      Taken([line] + b.blanks + t.taken, t.term, t.rest)
  }

  /** Every line the body loop takes starts with `ws` or is blank; it stops
      at a line that does not start with `ws`. */
  lemma {:induction false} TakeIndentedLines(ws: string, line: string, lines: seq<string>)
    requires ws != ""
    ensures var r := TakeIndented(ws, line, lines);
            && (forall i :: 0 <= i < |r.taken| ==> r.taken[i] != "" && (StartsWith(r.taken[i], ws) || IsBlank(r.taken[i])))
            && !StartsWith(r.term, ws)
            && (line == "" || !IsBlank(line) ==> r.term == "" || !IsBlank(r.term))
            && (StartsWith(line, ws) ==> r.taken != [] && r.taken[0] == line)
    decreases Left(line, lines)
  {
    if StartsWith(line, ws) && lines != [] {
      SkipBlankLines(lines[0], lines[1..]);
      var b := SkipBlank(lines[0], lines[1..]);
      TakeIndentedLines(ws, b.line, b.rest);
      var t := TakeIndented(ws, b.line, b.rest);
      var r := TakeIndented(ws, line, lines);
      assert r.taken == [line] + b.blanks + t.taken;
      forall i | 0 <= i < |r.taken|
        ensures r.taken[i] != "" && (StartsWith(r.taken[i], ws) || IsBlank(r.taken[i]))
      {
        if i == 0 {
        } else if i <= |b.blanks| {
          assert r.taken[i] == b.blanks[i - 1];
        } else {
          assert r.taken[i] == t.taken[i - 1 - |b.blanks|];
        }
      }
    }
  }

  /** The body loop loses no line. */
  lemma {:induction false} TakeIndentedKeeps(ws: string, line: string, lines: seq<string>)
    requires ws != "" && NoEmptyLines(lines)
    ensures var r := TakeIndented(ws, line, lines);
            Avail(line, lines) == r.taken + Avail(r.term, r.rest)
    decreases Left(line, lines)
  {
    if StartsWith(line, ws) && lines != [] {
      var b := SkipBlank(lines[0], lines[1..]);
      var t := TakeIndented(ws, b.line, b.rest);
      assert NoEmptyLines(b.rest) && lines == b.blanks + Avail(b.line, b.rest) by {
        assert NoEmptyLines(lines[1..]);
        SkipBlankKeeps(lines[0], lines[1..]);
        assert lines == [lines[0]] + lines[1..] == Avail(lines[0], lines[1..]);
      }
      TakeIndentedKeeps(ws, b.line, b.rest);
      assert TakeIndented(ws, line, lines) == Taken([line] + b.blanks + t.taken, t.term, t.rest);
      assert Avail(line, lines) == [line] + lines by {
        assert |line| >= |ws| > 0;
      }
      TakeStepKeeps(line, lines, b, t);
    } else if StartsWith(line, ws) {
      assert TakeIndented(ws, line, lines) == Taken([line], "", []);
      assert |line| >= |ws| > 0;
    }
  }

  /** One round of the body loop: the line, its blank run, and the rest of
      the body, in order. */
  lemma TakeStepKeeps(line: string, lines: seq<string>, b: Blanks, t: Taken)
    requires lines == b.blanks + Avail(b.line, b.rest)
    requires Avail(b.line, b.rest) == t.taken + Avail(t.term, t.rest)
    ensures [line] + lines == ([line] + b.blanks + t.taken) + Avail(t.term, t.rest)
  {
  }

  lemma PrependKeeps(line: string, x: seq<string>, taken: seq<string>, left: seq<string>)
    requires x == taken + left
    ensures [line] + x == ([line] + taken) + left
  {
  }

  /** A blank run followed by a body run loses no line. */
  lemma ComposeKeeps(x: seq<string>, b: Blanks, t: Taken)
    requires x == b.blanks + Avail(b.line, b.rest)
    requires Avail(b.line, b.rest) == t.taken + Avail(t.term, t.rest)
    ensures x == b.blanks + t.taken + Avail(t.term, t.rest)
  {
  }

  /** A captured block: the lines, the indent of its first non-blank line and
      that line's index, and the line that ended it (`stored_line`). */
  datatype Block = Block(lines: seq<string>, ws: string, first: nat, term: string, rest: seq<string>)

  datatype BlockScan =
    | Captured(block: Block)
      /** Only blank lines before end of input. */
    | EmptyToEof(blanks: nat)
      /** The first non-blank line has no leading whitespace, so the
          whitespace pattern does not match and `.groups` fails. */
    | NoIndent

  /** The block scan of `generate_tokens` (and `scan_mysuite_block`),
      starting from the line already read. */
  function ScanBlock(line: string, lines: seq<string>): (r: BlockScan)
    ensures r.Captured? ==> Left(r.block.term, r.block.rest) + |r.block.lines| <= Left(line, lines)
    ensures r.Captured? ==> |r.block.ws| > 0
  {
    var b := SkipBlank(line, lines);
    if b.line == "" then EmptyToEof(|b.blanks|)
    else
      var w := LeadingSpace(b.line);
      if w == 0 then NoIndent
      else
        var ws := b.line[..w];
        var t := TakeIndented(ws, b.line, b.rest);
        Captured(Block(b.blanks + t.taken, ws, |b.blanks|, t.term, t.rest))
  }

  /** Everything a successful scan guarantees about the block. */
  lemma ScanBlockSpec(line: string, lines: seq<string>)
    requires ScanBlock(line, lines).Captured?
    ensures var k := ScanBlock(line, lines).block;
            && |k.ws| > 0 && IsBlank(k.ws)
            && k.first < |k.lines|
            && (forall i :: 0 <= i < k.first ==> IsBlank(k.lines[i]))
            && StartsWith(k.lines[k.first], k.ws) && !IsBlank(k.lines[k.first])
            && LeadingSpace(k.lines[k.first]) == |k.ws|
            && (forall i :: 0 <= i < |k.lines| ==> k.lines[i] != "" && (StartsWith(k.lines[i], k.ws) || IsBlank(k.lines[i])))
            && (k.term == "" || (!IsBlank(k.term) && !StartsWith(k.term, k.ws)))
            && Left(k.term, k.rest) + |k.lines| <= Left(line, lines)
            && (NoEmptyLines(lines) ==> Avail(line, lines) == k.lines + Avail(k.term, k.rest))
  {
    ScanBlockHead(line, lines);
    ScanBlockBody(line, lines);
    if NoEmptyLines(lines) {
      ScanBlockKeeps(line, lines);
    }
  }

  /** The blank lines, then the first non-blank line, which sets the indent. */
  lemma ScanBlockHead(line: string, lines: seq<string>)
    requires ScanBlock(line, lines).Captured?
    ensures var k := ScanBlock(line, lines).block;
            && |k.ws| > 0 && IsBlank(k.ws)
            && k.first < |k.lines|
            && (forall i :: 0 <= i < k.first ==> IsBlank(k.lines[i]))
            && StartsWith(k.lines[k.first], k.ws) && !IsBlank(k.lines[k.first])
            && LeadingSpace(k.lines[k.first]) == |k.ws|
  {
    SkipBlankLines(line, lines);
    var b := SkipBlank(line, lines);
    var w := LeadingSpace(b.line);
    var ws := b.line[..w];
    var t := TakeIndented(ws, b.line, b.rest);
    assert StartsWith(b.line, ws);
    TakeIndentedLines(ws, b.line, b.rest);
    var k := ScanBlock(line, lines).block;
    assert k == Block(b.blanks + t.taken, ws, |b.blanks|, t.term, t.rest);
    assert k.lines[k.first] == b.line;
    forall i | 0 <= i < k.first
      ensures IsBlank(k.lines[i])
    {
      assert k.lines[i] == b.blanks[i];
    }
  }

  /** Every captured line is indented or blank, and the block ends at end of
      input or at a non-blank line that is not indented. */
  lemma ScanBlockBody(line: string, lines: seq<string>)
    requires ScanBlock(line, lines).Captured?
    ensures var k := ScanBlock(line, lines).block;
            && (forall i :: 0 <= i < |k.lines| ==> k.lines[i] != "" && (StartsWith(k.lines[i], k.ws) || IsBlank(k.lines[i])))
            && (k.term == "" || (!IsBlank(k.term) && !StartsWith(k.term, k.ws)))
  {
    SkipBlankLines(line, lines);
    var b := SkipBlank(line, lines);
    var w := LeadingSpace(b.line);
    var ws := b.line[..w];
    var t := TakeIndented(ws, b.line, b.rest);
    TakeIndentedLines(ws, b.line, b.rest);
    var k := ScanBlock(line, lines).block;
    assert k == Block(b.blanks + t.taken, ws, |b.blanks|, t.term, t.rest);
    forall i | 0 <= i < |k.lines|
      ensures k.lines[i] != "" && (StartsWith(k.lines[i], k.ws) || IsBlank(k.lines[i]))
    {
      if i < |b.blanks| {
        assert k.lines[i] == b.blanks[i];
      } else {
        assert k.lines[i] == t.taken[i - |b.blanks|];
      }
    }
  }

  /** The scan loses no line. */
  lemma ScanBlockKeeps(line: string, lines: seq<string>)
    requires ScanBlock(line, lines).Captured? && NoEmptyLines(lines)
    ensures var k := ScanBlock(line, lines).block;
            Avail(line, lines) == k.lines + Avail(k.term, k.rest)
  {
    var b := SkipBlank(line, lines);
    var w := LeadingSpace(b.line);
    var ws := b.line[..w];
    var t := TakeIndented(ws, b.line, b.rest);
    SkipBlankKeeps(line, lines);
    TakeIndentedKeeps(ws, b.line, b.rest);
    ComposeKeeps(Avail(line, lines), b, t);
  }

  /** The scan fails with "Empty mysuite block" exactly when nothing but blank
      lines (possibly none) remains. */
  lemma {:induction false} EmptyBlockIffBlank(line: string, lines: seq<string>)
    requires NoEmptyLines(lines)
    ensures ScanBlock(line, lines).EmptyToEof? <==> forall i :: 0 <= i < |Avail(line, lines)| ==> IsBlank(Avail(line, lines)[i])
  {
    SkipBlankKeeps(line, lines);
    SkipBlankLines(line, lines);
    var b := SkipBlank(line, lines);
    assert Avail(line, lines) == b.blanks + Avail(b.line, b.rest);
    if b.line != "" {
      assert Avail(line, lines)[|b.blanks|] == b.line;
    }
  }

  /** A captured line with its common indent of width `w` removed; a blank
      line no longer than the indent keeps only its line ending. */
  function NormalizeLine(ln: string, w: nat): (r: string)
    ensures |ln| > w ==> r == ln[w..]
    ensures |ln| <= w && EndsWith(ln, "\r\n") ==> r == "\r\n"
    ensures |ln| <= w && !EndsWith(ln, "\r\n") && |ln| > 0 ==> r == [ln[|ln| - 1]]
    ensures ln == "" ==> r == ""
  {
    if |ln| > w then ln[w..]
    else if EndsWith(ln, "\r\n") then ln[|ln| - 2..]
    else if |ln| > 0 then ln[|ln| - 1..]
    else ""
  }

  function NormalizeAll(lns: seq<string>, w: nat): (r: seq<string>)
    ensures |r| == |lns| && forall i :: 0 <= i < |lns| ==> r[i] == NormalizeLine(lns[i], w)
  {
    if lns == [] then [] else [NormalizeLine(lns[0], w)] + NormalizeAll(lns[1..], w)
  }

  /** The MYSUITE token text. */
  function SuiteText(lns: seq<string>, w: nat): string {
    Concat(NormalizeAll(lns, w))
  }

  /** Stripping the indent loses nothing: the indent plus the normalised line
      gives back the line. */
  lemma NormalizeRestores(ln: string, ws: string)
    requires StartsWith(ln, ws) && |ln| > |ws|
    ensures ws + NormalizeLine(ln, |ws|) == ln
  {
    assert ln == ln[..|ws|] + ln[|ws|..];
  }

  /** The line ending the normalisation keeps of a short line: "\r\n" when
      the line ends with it, otherwise its last character. */
  function LineEnd(ln: string): (r: string)
    ensures |r| <= 2 && |r| <= |ln| && ln[|ln| - |r|..] == r
    ensures ln != "" ==> r != ""
  {
    if EndsWith(ln, "\r\n") then ln[|ln| - 2..] else if |ln| > 0 then ln[|ln| - 1..] else ""
  }

  /** What the MYSUITE text keeps of each captured line: a line longer than
      the indent loses its first `|ws|` characters, which are the indent
      itself when it starts with it; a line no longer than the indent (a
      blank line) keeps only its line ending.  When every line is longer and
      starts with the indent, putting the indent back rebuilds the block. */
  lemma {:induction false} SuiteTextRestores(lns: seq<string>, ws: string)
    ensures var n := NormalizeAll(lns, |ws|);
            && (forall i :: 0 <= i < |lns| && |lns[i]| > |ws| ==> lns[i] == lns[i][..|ws|] + n[i])
            && (forall i :: 0 <= i < |lns| && |lns[i]| > |ws| && StartsWith(lns[i], ws) ==> ws + n[i] == lns[i])
            && (forall i :: 0 <= i < |lns| && |lns[i]| <= |ws| ==> n[i] == LineEnd(lns[i]))
    ensures (forall i :: 0 <= i < |lns| ==> StartsWith(lns[i], ws) && |lns[i]| > |ws|) ==>
              Concat(lns) == Reindent(NormalizeAll(lns, |ws|), ws)
  {
    var n := NormalizeAll(lns, |ws|);
    forall i | 0 <= i < |lns| && |lns[i]| > |ws|
      ensures lns[i] == lns[i][..|ws|] + n[i]
    {
      assert lns[i] == lns[i][..|ws|] + lns[i][|ws|..];
    }
    forall i | 0 <= i < |lns| && |lns[i]| > |ws| && StartsWith(lns[i], ws)
      ensures ws + n[i] == lns[i]
    {
      NormalizeRestores(lns[i], ws);
    }
    if forall i :: 0 <= i < |lns| ==> StartsWith(lns[i], ws) && |lns[i]| > |ws| {
      LongLinesRestore(lns, ws);
    }
  }

  /** Every line long and indented: the indent put back rebuilds the block. */
  lemma {:induction false} LongLinesRestore(lns: seq<string>, ws: string)
    requires forall i :: 0 <= i < |lns| ==> StartsWith(lns[i], ws) && |lns[i]| > |ws|
    ensures Concat(lns) == Reindent(NormalizeAll(lns, |ws|), ws)
  {
    if lns != [] {
      NormalizeRestores(lns[0], ws);
      LongLinesRestore(lns[1..], ws);
      assert NormalizeAll(lns, |ws|)[1..] == NormalizeAll(lns[1..], |ws|);
    }
  }

  function Reindent(lns: seq<string>, ws: string): string {
    if lns == [] then [] else ws + lns[0] + Reindent(lns[1..], ws)
  }

  // ------------------------------------------------------- inline MYSUITE

  /** Python's `line[pos:]`. */
  function Suffix(line: string, pos: nat): (r: string)
    ensures pos <= |line| ==> r == line[pos..]
    ensures pos > |line| ==> r == ""
  {
    if pos <= |line| then line[pos..] else ""
  }

  /** The inline quotation after a ':': the stripped remainder, and where it
      starts; `None` when the remainder is blank. */
  function InlineSuite(line: string, pos: nat): (r: Option<(string, nat)>)
    ensures r.None? <==> IsBlank(Suffix(line, pos))
    ensures r.Some? ==> pos <= r.value.1 && r.value.1 + |r.value.0| <= |line|
  {
    var rest := Suffix(line, pos);
    var cand := Strip(rest);
    if cand == [] then None
    else
      var a := LeadingSpace(rest);
      assert cand == rest[a..|rest| - TrailingSpace(rest)];
      Some((cand, pos + a))
  }

  /** The quotation is the stripped remainder, found in place: only spaces
      before it, and it starts at a non-space. */
  lemma InlineSuiteText(line: string, pos: nat)
    requires InlineSuite(line, pos).Some?
    ensures var c := InlineSuite(line, pos).value;
            && c.0 == line[c.1..c.1 + |c.0|]
            && c.0 == Strip(Suffix(line, pos))
            && (forall i :: pos <= i < c.1 ==> IsSpace(line[i]))
            && !IsSpace(line[c.1])
  {
    var rest := Suffix(line, pos);
    var a := LeadingSpace(rest);
    assert Strip(rest) == rest[a..|rest| - TrailingSpace(rest)];
    forall i | pos <= i < pos + a
      ensures IsSpace(line[i])
    {
      assert line[i] == rest[i - pos];
    }
    assert line[pos + a] == rest[a];
  }

  // ---------------------------------------------------------- MYEXPR body

  /** `CLOSERS`. */
  function Closer(open: string): (r: Option<char>)
    ensures r.Some? <==> open in {"{", "(", "<", "["}
  {
    if open == "{" then Some('}')
    else if open == "(" then Some(')')
    else if open == "<" then Some('>')
    else if open == "[" then Some(']')
    else None
  }

  /** The depth change a text makes: openers minus closers. */
  function Balance(s: string, op: char, cl: char): int {
    if s == [] then 0
    else Balance(s[..|s| - 1], op, cl) + (if s[|s| - 1] == op then 1 else if s[|s| - 1] == cl then -1 else 0)
  }

  lemma {:induction false} BalanceAppend(a: string, b: string, op: char, cl: char)
    ensures Balance(a + b, op, cl) == Balance(a, op, cl) + Balance(b, op, cl)
    decreases |b|
  {
    if b == [] {
      assert a + b == a;
    } else {
      var b' := b[..|b| - 1];
      assert (a + b)[..|a + b| - 1] == a + b';
      BalanceAppend(a, b', op, cl);
    }
  }

  /** The inner scan: from `pos`, with `depth` open, either stop just past
      the closer that brings the depth to 0, or reach the end of the line. */
  function ScanLine(line: string, pos: nat, op: char, cl: char, depth: nat): (r: (nat, nat))
    requires depth >= 1
    ensures pos <= r.0
    ensures r.1 == 0 ==> pos < r.0 <= |line|
    decreases |line| - pos
  {
    if pos >= |line| then (pos, depth)
    else
      var d: int := if line[pos] == op then depth + 1 else if line[pos] == cl then depth - 1 else depth;
      if d <= 0 then (pos + 1, 0) else ScanLine(line, pos + 1, op, cl, d)
  }

  /** The scan adds up the depth changes of what it passed, stops the first
      time the depth reaches 0, and there only, just past a closer. */
  lemma {:induction false} ScanLineSpec(line: string, pos: nat, op: char, cl: char, depth: nat)
    requires depth >= 1 && pos <= |line|
    ensures var p := ScanLine(line, pos, op, cl, depth).0;
            var d := ScanLine(line, pos, op, cl, depth).1;
            && pos <= p <= |line|
            && d == depth + Balance(line[pos..p], op, cl)
            && (d > 0 ==> p == |line|)
            && (d == 0 ==> pos < p && line[p - 1] == cl)
            && (forall k :: pos <= k < p ==> depth + Balance(line[pos..k], op, cl) > 0)
    decreases |line| - pos
  {
    assert line[pos..pos] == [];
    if pos < |line| {
      var c := line[pos];
      var d: int := if c == op then depth + 1 else if c == cl then depth - 1 else depth;
      var one := line[pos..pos + 1];
      assert one == [c];
      assert Balance(one, op, cl) == d - depth by {
        assert one[..0] == [];
      }
      if d > 0 {
        ScanLineSpec(line, pos + 1, op, cl, d);
        var p := ScanLine(line, pos + 1, op, cl, d).0;
        BalanceStep(line, pos, p, op, cl);
        forall k | pos + 1 <= k < p
          ensures depth + Balance(line[pos..k], op, cl) > 0
        {
          BalanceStep(line, pos, k, op, cl);
        }
      }
    }
  }

  /** Peeling the first character off a slice's balance. */
  lemma BalanceStep(line: string, pos: nat, k: nat, op: char, cl: char)
    requires pos < k <= |line|
    ensures Balance(line[pos..k], op, cl) == Balance(line[pos..pos + 1], op, cl) + Balance(line[pos + 1..k], op, cl)
  {
    BalanceAppend(line[pos..pos + 1], line[pos + 1..k], op, cl);
    assert line[pos..pos + 1] + line[pos + 1..k] == line[pos..k];
  }

  datatype ExprScan =
      /** `read`: the lines read after the first; the scan ended at `pos` of `last`. */
    | ExprDone(read: seq<string>, last: string, pos: nat, rest: seq<string>)
      /** Input ran out with the depth still positive: the source re-reads
          "" forever. */
    | ExprDiverges

  /** The outer loop: scan the current line, and while the depth stays
      positive read the next one. */
  function ScanExpr(line: string, pos: nat, lines: seq<string>, op: char, cl: char, depth: nat): (r: ExprScan)
    requires depth >= 1
    ensures r.ExprDone? ==> |r.rest| + |r.read| == |lines|
    ensures r.ExprDone? ==> r.last == (if r.read == [] then line else r.read[|r.read| - 1])
    ensures r.ExprDone? && r.read == [] ==> r.pos == ScanLine(line, pos, op, cl, depth).0 && pos < r.pos <= |line|
    decreases |lines|
  {
    var sc := ScanLine(line, pos, op, cl, depth);
    if sc.1 == 0 then ExprDone([], line, sc.0, lines)
    else if lines == [] then ExprDiverges
    else
      match ScanExpr(lines[0], 0, lines[1..], op, cl, sc.1)
      case ExprDiverges => ExprDiverges
      case ExprDone(rd, last, q, rest) => ExprDone([lines[0]] + rd, last, q, rest)
  }

  /** A finished scan splits the remaining lines into those it read and
      those it left. */
  lemma {:induction false} ScanExprSplit(line: string, pos: nat, lines: seq<string>, op: char, cl: char, depth: nat)
    requires depth >= 1
    ensures var r := ScanExpr(line, pos, lines, op, cl, depth);
            r.ExprDone? ==> lines == r.read + r.rest
    decreases |lines|
  {
    var sc := ScanLine(line, pos, op, cl, depth);
    if sc.1 != 0 && lines != [] {
      ScanExprSplit(lines[0], 0, lines[1..], op, cl, sc.1);
      assert lines == [lines[0]] + lines[1..];
    }
  }

  /** Python's `s[i:j]` for non-negative bounds. */
  function Slice(s: string, i: nat, j: nat): (r: string)
    ensures i <= j <= |s| ==> r == s[i..j]
    ensures |r| <= |s|
  {
    var a := if i <= |s| then i else |s|;
    var b := if j <= |s| then j else |s|;
    if a <= b then s[a..b] else ""
  }

  /** The MYEXPR text as the source builds it for `lns = [first] + read`:
      the middle lines are `lns[1:-2]`. */
  function ExprTextAsWritten(lns: seq<string>, start: nat, pos: nat): string
    requires |lns| >= 1
  {
    if |lns| == 1 then Slice(lns[0], start, pos)
    else
      var mid := if |lns| >= 3 then lns[1..|lns| - 2] else [];
      Slice(lns[0], start, |lns[0]|) + Concat(mid) + Slice(lns[|lns| - 1], 0, pos)
  }

  /** The captured lines without the second-to-last one, when there are
      three or more. */
  function DropPenultimate(lns: seq<string>): (r: seq<string>)
    ensures |lns| >= 1 ==> |r| >= 1 && r[0] == lns[0] && r[|r| - 1] == lns[|lns| - 1]
    ensures |lns| >= 3 ==> |r| == |lns| - 1 && forall i :: 0 <= i < |r| - 1 ==> r[i] == lns[i]
    ensures |lns| <= 2 ==> r == lns
  {
    if |lns| >= 3 then lns[..|lns| - 2] + [lns[|lns| - 1]] else lns
  }

  /** The source's join is the corrected join over the lines without the
      second-to-last one; for one or two lines the two joins agree. */
  lemma {:induction false} AsWrittenDropsPenultimate(lns: seq<string>, start: nat, pos: nat)
    requires |lns| >= 1
    ensures ExprTextAsWritten(lns, start, pos) == ExprText(DropPenultimate(lns), start, pos)
    ensures |lns| <= 2 ==> ExprTextAsWritten(lns, start, pos) == ExprText(lns, start, pos)
  {
    var n := |lns|;
    if n >= 3 {
      var kept := DropPenultimate(lns);
      assert kept[1..|kept| - 1] == lns[1..n - 2];
    }
  }

  /** The MYEXPR text with every middle line, `lns[1:-1]`. */
  function ExprText(lns: seq<string>, start: nat, pos: nat): string
    requires |lns| >= 1
  {
    if |lns| == 1 then Slice(lns[0], start, pos)
    else Slice(lns[0], start, |lns[0]|) + Concat(lns[1..|lns| - 1]) + Slice(lns[|lns| - 1], 0, pos)
  }

  /** `text` is the stretch of the lines, joined, from `start` on the first
      line to `q` on the last. */
  ghost predicate IsStretch(text: string, lns: seq<string>, start: nat, q: nat)
    requires |lns| >= 1
  {
    var all := Concat(lns);
    var endAt := |all| - |lns[|lns| - 1]| + q;
    start <= endAt <= |all| && text == all[start..endAt]
  }

  /** A three-line capture where the source's join loses the middle line:
      the first line ends in the opener, the closer is on the third. */
  lemma ExprTextDropsMiddleLine()
    ensures var lns := ["f(\n", "y\n", "z)\n"];
            && ScanExpr(lns[0], 2, lns[1..], '(', ')', 1) == ExprDone(lns[1..], lns[2], 2, [])
            && ExprTextAsWritten(lns, 2, 2) == "\nz)"
            && ExprText(lns, 2, 2) == "\ny\nz)"
  {
    var lns := ["f(\n", "y\n", "z)\n"];
    assert ScanLine(lns[0], 2, '(', ')', 1) == (3, 1);
    assert ScanLine(lns[1], 0, '(', ')', 1) == (2, 1);
    assert ScanLine(lns[2], 0, '(', ')', 1) == (2, 0);
    assert ScanExpr(lns[2], 0, [], '(', ')', 1) == ExprDone([], lns[2], 2, []);
    assert lns[1..][1..] == [lns[2]];
    assert ScanExpr(lns[1], 0, [lns[2]], '(', ')', 1) == ExprDone([lns[2]], lns[2], 2, []);
    assert [lns[1]] + [lns[2]] == lns[1..];
    assert ExprTextAsWritten(lns, 2, 2) == "\n" + "" + "z)";
    assert lns[1..2] == ["y\n"];
    assert Concat(["y\n"]) == "y\n";
  }

  /** The corrected text is exactly the captured lines' text from just after
      the opener to the end position. */
  lemma {:induction false} ExprTextIsSubstring(lns: seq<string>, start: nat, pos: nat)
    requires |lns| >= 1 && start <= |lns[0]| && pos <= |lns[|lns| - 1]|
    requires |lns| == 1 ==> start <= pos
    ensures var all := Concat(lns);
            var endAt := |all| - |lns[|lns| - 1]| + pos;
            start <= endAt <= |all| && ExprText(lns, start, pos) == all[start..endAt]
  {
    var n := |lns|;
    var last := lns[n - 1];
    if n == 1 {
      assert Concat(lns) == lns[0] + Concat([]);
    } else {
      var mid := lns[1..n - 1];
      assert lns == [lns[0]] + mid + [last];
      ConcatAppend([lns[0]] + mid, [last]);
      ConcatAppend([lns[0]], mid);
      assert Concat([last]) == last;
      assert Concat([lns[0]]) == lns[0];
      var all := Concat(lns);
      assert all == lns[0] + Concat(mid) + last;
      assert all[start..|all| - |last| + pos] == lns[0][start..] + Concat(mid) + last[..pos];
    }
  }

  /** Prepending a fully scanned first line to a capture. */
  lemma {:induction false} ExprTextCons(line: string, pos: nat, lns: seq<string>, q: nat)
    requires |lns| >= 1 && pos <= |line|
    ensures ExprText([line] + lns, pos, q) == line[pos..] + ExprText(lns, 0, q)
  {
    var all := [line] + lns;
    var m := |lns|;
    var last := Slice(lns[m - 1], 0, q);
    assert |all| == m + 1 && all[0] == line && all[|all| - 1] == lns[m - 1];
    assert Slice(line, pos, |line|) == line[pos..];
    assert ExprText(all, pos, q) == line[pos..] + Concat(all[1..|all| - 1]) + last;
    if m == 1 {
      assert all[1..|all| - 1] == [];
      assert ExprText(lns, 0, q) == last;
    } else {
      var mid := Concat(lns[1..m - 1]);
      var inner := all[1..|all| - 1];
      assert inner[0] == lns[0] && inner[1..] == lns[1..m - 1];
      assert Concat(inner) == lns[0] + mid;
      assert Slice(lns[0], 0, |lns[0]|) == lns[0];
      assert ExprText(lns, 0, q) == lns[0] + mid + last;
      assert line[pos..] + (lns[0] + mid) + last == line[pos..] + (lns[0] + mid + last);
    }
  }

  /** When the capture ends, the text from just after the opener through
      the closer balances the opener: the depth goes from 1 to 0. */
  lemma {:induction false} ExprBalanced(line: string, pos: nat, lines: seq<string>, op: char, cl: char, depth: nat)
    requires depth >= 1 && pos <= |line|
    requires ScanExpr(line, pos, lines, op, cl, depth).ExprDone?
    ensures var r := ScanExpr(line, pos, lines, op, cl, depth);
            && r.pos <= |r.last| && 0 < r.pos && r.last[r.pos - 1] == cl
            && depth + Balance(ExprText([line] + r.read, pos, r.pos), op, cl) == 0
    decreases |lines|
  {
    ScanLineSpec(line, pos, op, cl, depth);
    if ScanLine(line, pos, op, cl, depth).1 == 0 {
      ExprBalancedHere(line, pos, lines, op, cl, depth);
    } else {
      var d := ScanLine(line, pos, op, cl, depth).1;
      ExprBalanced(lines[0], 0, lines[1..], op, cl, d);
      ExprBalancedLater(line, pos, lines, op, cl, depth);
    }
  }

  lemma {:induction false} ExprBalancedHere(line: string, pos: nat, lines: seq<string>, op: char, cl: char, depth: nat)
    requires depth >= 1 && pos <= |line|
    requires ScanLine(line, pos, op, cl, depth).1 == 0
    ensures var r := ScanExpr(line, pos, lines, op, cl, depth);
            && r.ExprDone? && r.read == [] && r.last == line
            && r.pos <= |r.last| && 0 < r.pos && r.last[r.pos - 1] == cl
            && depth + Balance(ExprText([line] + r.read, pos, r.pos), op, cl) == 0
  {
    ScanLineSpec(line, pos, op, cl, depth);
    var p := ScanLine(line, pos, op, cl, depth).0;
    assert ScanExpr(line, pos, lines, op, cl, depth) == ExprDone([], line, p, lines);
    assert [line] + [] == [line];
    assert ExprText([line], pos, p) == line[pos..p];
  }

  lemma {:induction false} ExprBalancedLater(line: string, pos: nat, lines: seq<string>, op: char, cl: char, depth: nat)
    requires depth >= 1 && pos <= |line|
    requires ScanLine(line, pos, op, cl, depth).1 > 0
    requires ScanExpr(line, pos, lines, op, cl, depth).ExprDone?
    requires var d := ScanLine(line, pos, op, cl, depth).1;
             var r1 := ScanExpr(lines[0], 0, lines[1..], op, cl, d);
             && r1.ExprDone?
             && r1.pos <= |r1.last| && 0 < r1.pos && r1.last[r1.pos - 1] == cl
             && d + Balance(ExprText([lines[0]] + r1.read, 0, r1.pos), op, cl) == 0
    ensures var r := ScanExpr(line, pos, lines, op, cl, depth);
            && r.pos <= |r.last| && 0 < r.pos && r.last[r.pos - 1] == cl
            && depth + Balance(ExprText([line] + r.read, pos, r.pos), op, cl) == 0
  {
    ScanLineSpec(line, pos, op, cl, depth);
    var d := ScanLine(line, pos, op, cl, depth).1;
    var r1 := ScanExpr(lines[0], 0, lines[1..], op, cl, d);
    var r := ScanExpr(line, pos, lines, op, cl, depth);
    assert r == ExprDone([lines[0]] + r1.read, r1.last, r1.pos, r1.rest);
    var tail := [lines[0]] + r1.read;
    assert [line] + r.read == [line] + tail;
    ExprTextCons(line, pos, tail, r1.pos);
    BalanceAppend(line[pos..], ExprText(tail, 0, r1.pos), op, cl);
    assert ScanLine(line, pos, op, cl, depth).0 == |line|;
    assert line[pos..|line|] == line[pos..];
  }

  /** The corrected capture text is the stretch of the captured lines from
      just after the opener through the closer that balances it. */
  lemma ExprCapturedText(line: string, pos: nat, lines: seq<string>, op: char, cl: char)
    requires pos <= |line| && ScanExpr(line, pos, lines, op, cl, 1).ExprDone?
    ensures var sc := ScanExpr(line, pos, lines, op, cl, 1);
            var text := ExprText([line] + sc.read, pos, sc.pos);
            && 0 < sc.pos <= |sc.last| && sc.last[sc.pos - 1] == cl
            && IsStretch(text, [line] + sc.read, pos, sc.pos)
            && 1 + Balance(text, op, cl) == 0
  {
    var sc := ScanExpr(line, pos, lines, op, cl, 1);
    ExprBalanced(line, pos, lines, op, cl, 1);
    ExprCapturedFrom(line, pos, sc.read, sc.last, sc.pos, op, cl);
  }

  /** `ExprCapturedText` for a scan that read `read` after `line` and ended
      at `q` of `last`. */
  lemma ExprCapturedFrom(line: string, pos: nat, read: seq<string>, last: string, q: nat, op: char, cl: char)
    requires pos <= |line| && q <= |last|
    requires last == (if read == [] then line else read[|read| - 1])
    requires read == [] ==> pos <= q
    ensures IsStretch(ExprText([line] + read, pos, q), [line] + read, pos, q)
  {
    var lns := [line] + read;
    assert lns[0] == line && lns[|lns| - 1] == last by {
      if read != [] { assert lns[|lns| - 1] == read[|read| - 1]; }
    }
    ExprTextIsSubstring(lns, pos, q);
  }
  /** The source's MYEXPR text, for a scan that read `read` after `line`
      and ended at `q` of `last`, is the stretch of the captured lines with
      the second-to-last one left out. */
  lemma ExprAsWrittenFrom(line: string, pos: nat, read: seq<string>, last: string, q: nat)
    requires pos <= |line| && q <= |last|
    requires last == (if read == [] then line else read[|read| - 1])
    requires read == [] ==> pos <= q
    ensures IsStretch(ExprTextAsWritten([line] + read, pos, q), DropPenultimate([line] + read), pos, q)
  {
    var lns := [line] + read;
    assert lns[0] == line && lns[|lns| - 1] == last by {
      if read != [] { assert lns[|lns| - 1] == read[|read| - 1]; }
    }
    AsWrittenDropsPenultimate(lns, pos, q);
    ExprTextIsSubstring(DropPenultimate(lns), pos, q);
  }
}
