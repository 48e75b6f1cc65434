/** `mylexer.MythonReadliner`: a `readline` wrapper that can capture a
    MYSUITE block ahead of the lexer and then replay the line count it
    consumed, as one "\n" per captured line but the last, followed by the
    line that ended the block.  The wrapped callable is either a file's
    `readline` (which returns "" at end of input) or an iterator's `next`
    (which raises StopIteration there). */
module Readliner {
  import opened Errors
  import opened Text
  import opened Capture

  /** The wrapped callable over the input it has not yet returned. */
  datatype Source = Source(lines: seq<string>, raisesAtEof: bool)

  function SourceRead(src: Source): (r: Result<(string, Source)>)
    ensures src.lines != [] ==> r == Ok((src.lines[0], Source(src.lines[1..], src.raisesAtEof)))
    ensures src.lines == [] ==> r == (if src.raisesAtEof then Err(StopIter) else Ok(("", src)))
  {
    if src.lines != [] then Ok((src.lines[0], Source(src.lines[1..], src.raisesAtEof)))
    else if src.raisesAtEof then Err(StopIter)
    else Ok(("", src))
  }

  /** `last_line_count` and `stored_line`. */
  datatype Readliner = Readliner(src: Source, count: nat, stored: Option<string>)

  function New(src: Source): Readliner {
    Readliner(src, 0, None)
  }

  /** `__call__`. */
  function Call(r: Readliner): (res: Result<(string, Readliner)>)
    ensures r.count == 0 && r.stored.Some? ==> res == Ok((r.stored.value, r))
    ensures r.count > 1 && r.stored.Some? ==> res == Ok(("\n", Readliner(r.src, r.count - 1, r.stored)))
    ensures r.count == 1 && r.stored.Some? ==> res == Ok((r.stored.value, Readliner(r.src, 0, None)))
    ensures r.count > 0 && r.stored.None? ==> res == Err(AssertionErr)
  {
    if r.count > 0 then
      if r.stored.None? then Err(AssertionErr)
      else if r.count == 1 then Ok((r.stored.value, Readliner(r.src, 0, None)))
      else Ok(("\n", Readliner(r.src, r.count - 1, r.stored)))
    else if r.stored.Some? then Ok((r.stored.value, r))
    else
      var l :- SourceRead(r.src);
      Ok((l.0, Readliner(l.1, 0, None)))
  }

  /** `k` successive calls and the lines they return. */
  function CallN(r: Readliner, k: nat): Result<(seq<string>, Readliner)>
    decreases k
  {
    if k == 0 then Ok(([], r))
    else
      var c :- Call(r);
      var rest :- CallN(c.1, k - 1);
      Ok(([c.0] + rest.0, rest.1))
  }

  /** `scan_mysuite_block`: read ahead past the block with the wrapped
      callable.  The continuation test is `startswith` against the tuple
      `groups(1)`, i.e. against the last whitespace character of the first
      non-blank line's indent. */
  function ScanSuiteBlock(r: Readliner): (res: Result<(seq<string>, Readliner)>)
  {
    var first :- SourceRead(r.src);
    var lines := first.1.lines;
    var b := SkipBlank(first.0, lines);
    if b.line == "" then
      if r.src.raisesAtEof then Err(StopIter)
      else Ok((b.blanks, Readliner(Source(b.rest, false), |b.blanks|, Some(""))))
    else
      var w := LeadingSpace(b.line);
      if w == 0 then Err(AttributeErr)
      else
        var t := TakeIndented([b.line[w - 1]], b.line, b.rest);
        if t.term == "" && r.src.raisesAtEof then Err(StopIter)
        else
          var got := b.blanks + t.taken;
          Ok((got, Readliner(Source(t.rest, r.src.raisesAtEof), |got|, Some(t.term))))
  }

  // ---------------------------------------------------------------- properties

  /** Until a block is scanned the wrapper is transparent. */
  lemma FreshIsTransparent(src: Source)
    ensures match SourceRead(src)
            case Ok(l) => Call(New(src)) == Ok((l.0, New(l.1)))
            case Err(e) => Call(New(src)) == Err(e)
  {
  }

  /** After capturing `n >= 1` lines the next `n` calls return `n - 1`
      newlines and then the line that ended the block, and the wrapper is
      transparent again: the reader sees as many lines as were captured. */
  lemma {:induction false} ReplayAfterScan(src: Source, n: nat, term: string)
    requires n >= 1
    ensures CallN(Readliner(src, n, Some(term)), n) == Ok((Repeat("\n", n - 1) + [term], New(src)))
    decreases n
  {
    if n > 1 {
      ReplayAfterScan(src, n - 1, term);
      assert Call(Readliner(src, n, Some(term))) == Ok(("\n", Readliner(src, n - 1, Some(term))));
      assert ["\n"] + (Repeat("\n", n - 2) + [term]) == Repeat("\n", n - 1) + [term];
    } else {
      assert Call(Readliner(src, 1, Some(term))) == Ok((term, New(src)));
      assert CallN(New(src), 0) == Ok(([], New(src)));
      assert CallN(Readliner(src, 1, Some(term)), 1) == Ok(([term] + [], New(src)));
      assert Repeat("\n", 0) + [term] == [term] + [];
    }
  }

  /** After a scan that captured nothing, every call returns the stored line
      (the end of input) again. */
  lemma RepeatsStoredLine(src: Source, term: string, k: nat)
    ensures CallN(Readliner(src, 0, Some(term)), k) == Ok((Repeat(term, k), Readliner(src, 0, Some(term))))
    decreases k
  {
    if k > 0 {
      RepeatsStoredLine(src, term, k - 1);
    }
  }

  /** A scan loses no input: the captured lines, the stored line and what the
      wrapped callable still holds are the input, in order. */
  lemma {:induction false} ScanKeepsInput(r: Readliner)
    requires NoEmptyLines(r.src.lines)
    requires ScanSuiteBlock(r).Ok?
    ensures var s := ScanSuiteBlock(r).value;
            && s.1.count == |s.0|
            && s.1.stored.Some?
            && r.src.lines == s.0 + Avail(s.1.stored.value, s.1.src.lines)
  {
    var first := SourceRead(r.src).value;
    assert r.src.lines == Avail(first.0, first.1.lines) && NoEmptyLines(first.1.lines) by {
      if r.src.lines != [] {
        assert r.src.lines == [r.src.lines[0]] + r.src.lines[1..];
      }
    }
    ScanParts(first.0, first.1.lines);
  }

  /** The two loops of the scan, composed, lose no line. */
  lemma ScanParts(line: string, lines: seq<string>)
    requires NoEmptyLines(lines)
    ensures var b := SkipBlank(line, lines);
            b.line == "" ==> Avail(line, lines) == b.blanks + Avail(b.line, b.rest)
    ensures var b := SkipBlank(line, lines);
            var w := LeadingSpace(b.line);
            b.line != "" && w != 0 ==>
              var t := TakeIndented([b.line[w - 1]], b.line, b.rest);
              Avail(line, lines) == (b.blanks + t.taken) + Avail(t.term, t.rest)
  {
    SkipBlankKeeps(line, lines);
    var b := SkipBlank(line, lines);
    var w := LeadingSpace(b.line);
    if b.line != "" && w != 0 {
      var t := TakeIndented([b.line[w - 1]], b.line, b.rest);
      TakeIndentedKeeps([b.line[w - 1]], b.line, b.rest);
      ComposeKeeps(Avail(line, lines), b, t);
    }
  }
}
