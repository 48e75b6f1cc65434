/** What the parser glue guarantees: the handler table, the shape the
    override handlers give the tree, the tree depth across trampoline steps,
    the error rewriting and the entry points' defaults. */
module MyParserProps {
  import opened Errors
  import opened Text
  import opened Tokens
  import opened Trees
  import opened Accel
  import opened TokenStream
  import opened TreeBuilder
  import opened Trampoline
  import opened Lexer
  import opened MyParser
  import Capture

  // ------------------------------------------------------- handler table

  /** DFA `d` is an override filed under key `k`. */
  predicate OverridesKey(d: Dfa, k: Key) {
    KeyOf(d, k) && OverrideFor(d.name).Some?
  }

  /** One turn of the override loop. */
  function OverrideOne(d: Dfa, handlers: map<Key, Handler>): map<Key, Handler> {
    if OverrideFor(d.name).Some?
    then handlers[NameKey(d.name) := OverrideFor(d.name).value][NumKey(d.num) := OverrideFor(d.name).value]
    else handlers
  }

  lemma OverrideUnfold(dfas: seq<Dfa>, handlers: map<Key, Handler>)
    requires dfas != []
    ensures AddOverrides(dfas, handlers) == AddOverrides(dfas[1..], OverrideOne(dfas[0], handlers))
  {
  }

  /** Keys no override DFA carries keep their handler through the override
      loop. */
  lemma {:induction false} OverrideKeepsOthers(dfas: seq<Dfa>, handlers: map<Key, Handler>, k: Key)
    requires forall i :: 0 <= i < |dfas| ==> !OverridesKey(dfas[i], k)
    ensures var r := AddOverrides(dfas, handlers);
            (k in handlers <==> k in r) && (k in handlers ==> r[k] == handlers[k])
    decreases |dfas|
  {
    if dfas != [] {
      OverrideUnfold(dfas, handlers);
      assert !OverridesKey(dfas[0], k);
      var h' := OverrideOne(dfas[0], handlers);
      assert (k in h' <==> k in handlers) && (k in handlers ==> h'[k] == handlers[k]);
      forall j | 0 <= j < |dfas| - 1
        ensures !OverridesKey(dfas[1..][j], k)
      {
        assert dfas[1..][j] == dfas[j + 1];
      }
      OverrideKeepsOthers(dfas[1..], h', k);
    }
  }

  /** The last override DFA carrying a key wins it. */
  lemma {:induction false} LastOverrideWins(dfas: seq<Dfa>, handlers: map<Key, Handler>, k: Key, i: nat)
    requires i < |dfas| && OverridesKey(dfas[i], k)
    requires forall j :: i < j < |dfas| ==> !OverridesKey(dfas[j], k)
    ensures var r := AddOverrides(dfas, handlers);
            k in r && r[k] == OverrideFor(dfas[i].name).value
    decreases |dfas|
  {
    OverrideUnfold(dfas, handlers);
    var h' := OverrideOne(dfas[0], handlers);
    forall j | 0 <= j < |dfas| - 1
      ensures dfas[1..][j] == dfas[j + 1]
    {
    }
    if i > 0 {
      LastOverrideWins(dfas[1..], h', k, i - 1);
    } else {
      assert k in h' && h'[k] == OverrideFor(dfas[0].name).value;
      OverrideKeepsOthers(dfas[1..], h', k);
    }
  }

  /** The grammar the pgen tools produce numbers and names every DFA once. */
  predicate DistinctDfas(dfas: seq<Dfa>) {
    forall i, j :: 0 <= i < j < |dfas| ==> dfas[i].num != dfas[j].num && dfas[i].name != dfas[j].name
  }

  /** In a parser built from a grammar with distinct DFAs, `mysuite`,
      `myexpr0` and `myexpr1` are handled by the overrides under both their
      name and their number, every other DFA by its own handler under its
      number, and `start` by `parse_start`. */
  lemma {:induction false} HandlersRegistered(rec: Recogniser, g: Grammar, start: Option<string>, i: nat)
    requires NewParser(rec, g, start).Ok? && DistinctDfas(g.dfas) && i < |g.dfas|
    ensures var hs := NewParser(rec, g, start).value.handlers;
            var d := g.dfas[i];
            && NameKey("start") in hs && hs[NameKey("start")] == HStart
            && NumKey(d.num) in hs
            && (OverrideFor(d.name).Some? ==> hs[NumKey(d.num)] == OverrideFor(d.name).value
                                                && hs[NameKey(d.name)] == OverrideFor(d.name).value)
            && (OverrideFor(d.name).None? ==> hs[NumKey(d.num)] == HDfa(d)
                                               && (d.name != "start" ==> hs[NameKey(d.name)] == HDfa(d)))
  {
    var hs2 := AddOverrides(g.dfas, AddDfaHandlers(g.dfas, map[], DfaHandler));
    assert NewParser(rec, g, start).value.handlers == hs2[NameKey("start") := HStart];
    TableEntry(g.dfas, i);
  }

  /** Under distinct DFAs, no other DFA carries the number or the name of
      DFA `i`. */
  lemma OnlyOwner(dfas: seq<Dfa>, i: nat)
    requires DistinctDfas(dfas) && i < |dfas|
    ensures forall j :: 0 <= j < |dfas| && j != i ==> !KeyOf(dfas[j], NumKey(dfas[i].num)) && !KeyOf(dfas[j], NameKey(dfas[i].name))
  {
    forall j | 0 <= j < |dfas| && j != i
      ensures !KeyOf(dfas[j], NumKey(dfas[i].num)) && !KeyOf(dfas[j], NameKey(dfas[i].name))
    {
      if j < i {
        assert dfas[j].num != dfas[i].num && dfas[j].name != dfas[i].name;
      } else {
        assert dfas[i].num != dfas[j].num && dfas[i].name != dfas[j].name;
      }
    }
  }

  /** The entries of DFA `i` after both loops of `__init__`. */
  lemma TableEntry(dfas: seq<Dfa>, i: nat)
    requires DistinctDfas(dfas) && i < |dfas|
    ensures var hs := AddOverrides(dfas, AddDfaHandlers(dfas, map[], DfaHandler));
            var d := dfas[i];
            && NumKey(d.num) in hs && NameKey(d.name) in hs
            && (OverrideFor(d.name).Some? ==> hs[NumKey(d.num)] == OverrideFor(d.name).value
                                                && hs[NameKey(d.name)] == OverrideFor(d.name).value)
            && (OverrideFor(d.name).None? ==> hs[NumKey(d.num)] == HDfa(d) && hs[NameKey(d.name)] == HDfa(d))
  {
    var d := dfas[i];
    OnlyOwner(dfas, i);
    TableKey(dfas, i, NumKey(d.num));
    TableKey(dfas, i, NameKey(d.name));
  }

  /** One key that only DFA `i` owns. */
  lemma TableKey(dfas: seq<Dfa>, i: nat, k: Key)
    requires i < |dfas| && KeyOf(dfas[i], k)
    requires forall j :: 0 <= j < |dfas| && j != i ==> !KeyOf(dfas[j], k)
    ensures var hs := AddOverrides(dfas, AddDfaHandlers(dfas, map[], DfaHandler));
            var d := dfas[i];
            && k in hs
            && (OverrideFor(d.name).Some? ==> hs[k] == OverrideFor(d.name).value)
            && (OverrideFor(d.name).None? ==> hs[k] == HDfa(d))
  {
    var d := dfas[i];
    var hs := AddDfaHandlers(dfas, map[], DfaHandler);
    LastDfaWins(dfas, map[], DfaHandler, k, i);
    if OverrideFor(d.name).Some? {
      LastOverrideWins(dfas, hs, k, i);
    } else {
      assert forall j :: 0 <= j < |dfas| ==> !OverridesKey(dfas[j], k);
      OverrideKeepsOthers(dfas, hs, k);
    }
  }

  /** `parse_start` yields exactly the configured start symbol, which is
      `file_input` unless the caller names another, and then finishes. */
  lemma StartYieldsSymbol(rec: Recogniser, g: Grammar, start: Option<string>, w: MyParser.World)
    requires NewParser(rec, g, start).Ok?
    ensures var p := NewParser(rec, g, start).value;
            && SpawnFor(p)(NameKey("start")) == Some(GStart(false))
            && Resume(p, GStart(false), w) == Yielded(NameKey(start.GetOr("file_input")), GStart(true), w)
            && Resume(p, GStart(true), w) == Finished(w)
  {
  }

  // --------------------------------------------------- override handlers

  /** A node opened, given two leaves and closed again is one more child of
      the enclosing node. */
  lemma WrapTwo(b: Builder, data: Label, x: Label, y: Label)
    ensures var r := Pop(PushPop(PushPop(Push(b, data), x), y));
            && Depth(r) == Depth(b) && r.frames[..Depth(b) - 1] == b.frames[..Depth(b) - 1]
            && r.frames[Depth(b) - 1].data == b.frames[Depth(b) - 1].data
            && r.frames[Depth(b) - 1].children == b.frames[Depth(b) - 1].children + [Node(data, [Node(x, []), Node(y, [])])]
  {
    var t := Push(b, data);
    var ds := [x, y];
    assert ds[1..][1..] == [];
    assert PushPopAll(PushPop(PushPop(t, ds[0]), ds[1..][0]), ds[1..][1..]) == PushPop(PushPop(t, ds[0]), ds[1..][0]);
    WrapLeaves(b, data, ds);
    assert Leafs(ds) == [Node(x, []), Node(y, [])];
  }

  /** `parse_mysuite`, when it completes: the lexer was switched to suite
      capture before the ':' was taken; the enclosing node gains the ':' and
      a `mysuite` node of exactly two leaves, NEWLINE and MYSUITE in either
      order; the depth and the nodes below are unchanged; nothing is
      yielded. */
  lemma MysuiteShape(rec: Recogniser, w: MyParser.World)
    ensures var r := ParseMysuite(rec, w);
            r.Finished? ==>
            var b := w.tree;
            var n := Depth(b);
            var colon := GetToken(Pull(rec), Stream(StartMysuite(w.stream.src), w.stream.next));
            && colon.Ok? && colon.value.0.text == ":"
            && Depth(r.world.tree) == n
            && r.world.tree.frames[..n - 1] == b.frames[..n - 1]
            && r.world.tree.frames[n - 1].data == b.frames[n - 1].data
            && exists a: Token, c: Token ::
                 && ((a.kind == NEWLINE && c.kind == MYSUITE) || (a.kind == MYSUITE && c.kind == NEWLINE))
                 && r.world.tree.frames[n - 1].children
                    == b.frames[n - 1].children + [Node(Tok(colon.value.0), []), Node(Sym("mysuite"), [Node(Tok(a), []), Node(Tok(c), [])])]
  {
    if ParseMysuite(rec, w).Finished? {
      SuiteShape(Pull(rec), Stream(StartMysuite(w.stream.src), w.stream.next), w.tree);
    }
  }

  /** The colon `SuiteHandler` takes when it completes. */
  lemma SuiteColon<S>(pull: S -> Pulled<S>, s0: Stream<S>, b: Builder)
    requires SuiteHandler(pull, s0, b).Finished?
    ensures var colon := GetToken(pull, s0);
            colon.Ok? && colon.value.0.text == ":" && Expect(pull, s0, {TextIs(":")}) == colon
  {
    ExpectSpec(pull, s0, {TextIs(":")});
  }

  lemma {:induction false} SuiteShape<S>(pull: S -> Pulled<S>, s0: Stream<S>, b: Builder)
    requires SuiteHandler(pull, s0, b).Finished?
    ensures var r := SuiteHandler(pull, s0, b);
            var n := Depth(b);
            var colon := GetToken(pull, s0);
            && colon.Ok? && colon.value.0.text == ":"
            && Depth(r.world.tree) == n
            && r.world.tree.frames[..n - 1] == b.frames[..n - 1]
            && r.world.tree.frames[n - 1].data == b.frames[n - 1].data
            && exists a: Token, c: Token ::
                 && ((a.kind == NEWLINE && c.kind == MYSUITE) || (a.kind == MYSUITE && c.kind == NEWLINE))
                 && r.world.tree.frames[n - 1].children
                    == b.frames[n - 1].children + [Node(Tok(colon.value.0), []), Node(Sym("mysuite"), [Node(Tok(a), []), Node(Tok(c), [])])]
  {
    SuiteColon(pull, s0, b);
    var c := Expect(pull, s0, {TextIs(":")}).value;
    var b1 := PushPop(b, Tok(c.0));
    var t1 := Push(b1, Sym("mysuite"));
    var l := TestLookahead(pull, c.1, {KindIs(NEWLINE)}).value;
    var first := if l.0 then NEWLINE else MYSUITE;
    var second := if l.0 then MYSUITE else NEWLINE;
    var a := Expect(pull, l.1, {KindIs(first)}).value;
    var z := Expect(pull, a.1, {KindIs(second)}).value;
    assert a.0.kind == first by { ExpectSpec(pull, l.1, {KindIs(first)}); }
    assert z.0.kind == second by { ExpectSpec(pull, a.1, {KindIs(second)}); }
    var r := SuiteHandler(pull, s0, b);
    assert r.world.tree == Pop(PushPop(PushPop(t1, Tok(a.0)), Tok(z.0)));
    WrapTwo(b1, Sym("mysuite"), Tok(a.0), Tok(z.0));
    var n := Depth(b);
    assert b1.frames[n - 1].children == b.frames[n - 1].children + [Node(Tok(c.0), [])];
  }

  /** `parse_myexpr`, when it completes: the enclosing node gains one
      `myexpr` node holding the delimiter, any of `(`, `[`, `{`, `<`, and the
      MYEXPR token pulled after `start_myexpr` recorded that delimiter; the
      depth and the nodes below are unchanged; nothing is yielded. */
  lemma MyexprShape(rec: Recogniser, w: MyParser.World)
    requires ParseMyexpr(rec, w).Finished?
    ensures var r := ParseMyexpr(rec, w);
            var b := w.tree;
            var n := Depth(b);
            var d := GetToken(Pull(rec), w.stream);
            && d.Ok? && d.value.0.text in {"(", "[", "{", "<"}
            && var x := GetToken(Pull(rec), Stream(StartMyexpr(d.value.1.src, d.value.0), d.value.1.next));
               && x.Ok? && x.value.0.kind == MYEXPR
               && Depth(r.world.tree) == n
               && r.world.tree.frames[..n - 1] == b.frames[..n - 1]
               && r.world.tree.frames[n - 1].data == b.frames[n - 1].data
               && r.world.tree.frames[n - 1].children
                  == b.frames[n - 1].children + [Node(Sym("myexpr"), [Node(Tok(d.value.0), []), Node(Tok(x.value.0), [])])]
  {
    var sw := (lx: Lexer, t: Token) => StartMyexpr(lx, t);
    ExprShape(Pull(rec), sw, w.stream, w.tree);
    var d := GetToken(Pull(rec), w.stream);
    assert sw(d.value.1.src, d.value.0) == StartMyexpr(d.value.1.src, d.value.0);
  }

  lemma {:induction false} ExprShape<S>(pull: S -> Pulled<S>, switch: (S, Token) -> S, s: Stream<S>, b: Builder)
    requires ExprHandler(pull, switch, s, b).Finished?
    ensures var r := ExprHandler(pull, switch, s, b);
            var n := Depth(b);
            var d := GetToken(pull, s);
            && d.Ok? && d.value.0.text in {"(", "[", "{", "<"}
            && var x := GetToken(pull, Stream(switch(d.value.1.src, d.value.0), d.value.1.next));
               && x.Ok? && x.value.0.kind == MYEXPR
               && Depth(r.world.tree) == n
               && r.world.tree.frames[..n - 1] == b.frames[..n - 1]
               && r.world.tree.frames[n - 1].data == b.frames[n - 1].data
               && r.world.tree.frames[n - 1].children
                  == b.frames[n - 1].children + [Node(Sym("myexpr"), [Node(Tok(d.value.0), []), Node(Tok(x.value.0), [])])]
  {
    var wants := {TextIs("("), TextIs("["), TextIs("{"), TextIs("<")};
    ExpectSpec(pull, s, wants);
    var d := Expect(pull, s, wants).value;
    var s1 := Stream(switch(d.1.src, d.0), d.1.next);
    ExpectSpec(pull, s1, {KindIs(MYEXPR)});
    var x := Expect(pull, s1, {KindIs(MYEXPR)}).value;
    var t0 := Push(b, Sym("myexpr"));
    WrapTwo(b, Sym("myexpr"), Tok(d.0), Tok(x.0));
  }

  // --------------------------------------------------- depth accounting

  /** A generator that has pushed its node and not yet popped it. */
  predicate IsOpen(g: Gen) {
    g.GDfa? && !g.phase.NotStarted?
  }

  function Open(stack: seq<Gen>): nat
    decreases |stack|
  {
    if stack == [] then 0 else Open(stack[..|stack| - 1]) + (if IsOpen(stack[|stack| - 1]) then 1 else 0)
  }

  lemma OpenPrefix(stack: seq<Gen>)
    requires |stack| > 0
    ensures Open(stack) == Open(stack[..|stack| - 1]) + (if IsOpen(stack[|stack| - 1]) then 1 else 0)
  {
  }

  lemma OpenPush(s: seq<Gen>, g: Gen)
    ensures Open(s + [g]) == Open(s) + (if IsOpen(g) then 1 else 0)
  {
    assert (s + [g])[..|s|] == s;
  }

  /** The tree builder's depth is one for the root plus one per open
      generator. */
  predicate Balanced(stack: seq<Gen>, w: MyParser.World) {
    Depth(w.tree) == 1 + Open(stack)
  }

  /** What one resumption does to the depth: a DFA handler's first step
      pushes its node, its last step pops it, the override handlers and
      `parse_start` leave it as it was, and an exception leaves it no
      lower. */
  lemma {:induction false} ResumeDepth(p: Parser, g: Gen, w: MyParser.World)
    requires IsOpen(g) ==> Depth(w.tree) >= 2
    ensures var r := Resume(p, g, w);
            && (r.Yielded? ==> Depth(r.world.tree) == Depth(w.tree) && IsOpen(r.gen) == IsOpen(g))
            && (r.Running? ==> IsOpen(r.gen) && Depth(r.world.tree) == Depth(w.tree) + (if IsOpen(g) then 0 else 1))
            && (r.Finished? ==> Depth(r.world.tree) == Depth(w.tree) - (if IsOpen(g) then 1 else 0))
            && (r.Raised? ==> Depth(r.world.tree) >= Depth(w.tree))
  {
    match g
    case GStart(_) =>
    case GDfa(d, ph) =>
      var r := DfaResume(Pull(p.rec), p.grammar.labels, d, ph, w);
      if ph.Looping? {
        assert r == DfaIteration(Pull(p.rec), p.grammar.labels, d, ph.state, w);
      }
    case GSuite => SuiteDepth(p.rec, w);
    case GExpr => ExprDepth(p.rec, w);
  }

  lemma {:induction false} SuiteDepth(rec: Recogniser, w: MyParser.World)
    ensures var r := ParseMysuite(rec, w);
            && (r.Finished? ==> Depth(r.world.tree) == Depth(w.tree))
            && (r.Raised? ==> Depth(r.world.tree) >= Depth(w.tree))
  {
    if ParseMysuite(rec, w).Finished? {
      MysuiteShape(rec, w);
    }
  }

  lemma {:induction false} ExprDepth(rec: Recogniser, w: MyParser.World)
    ensures var r := ParseMyexpr(rec, w);
            && (r.Finished? ==> Depth(r.world.tree) == Depth(w.tree))
            && (r.Raised? ==> Depth(r.world.tree) >= Depth(w.tree))
  {
    if ParseMyexpr(rec, w).Finished? {
      MyexprShape(rec, w);
    }
  }

  /** Every turn of the trampoline keeps the depth at least one plus the
      open generators, and exactly that unless the turn popped a generator
      that a StopIteration ended (which leaves its node open). */
  lemma {:induction false} StepBalance(p: Parser, stack: seq<Gen>, w: MyParser.World)
    requires |stack| > 0 && Depth(w.tree) >= 1 + Open(stack)
    ensures var t := TrampolineStep(SpawnFor(p), Resumer(p), stack, w);
            t.Continue? ==> Depth(t.world.tree) >= 1 + Open(t.stack)
    ensures var t := TrampolineStep(SpawnFor(p), Resumer(p), stack, w);
            t.Continue? && Balanced(stack, w) && !Resume(p, stack[|stack| - 1], w).Raised? ==> Balanced(t.stack, t.world)
  {
    var n := |stack|;
    var g := stack[n - 1];
    var below := stack[..n - 1];
    OpenPrefix(stack);
    ResumeDepth(p, g, w);
    var r := Resume(p, g, w);
    assert Resumer(p)(g, w) == r;
    match r
    case Yielded(k, g', w') =>
      if k in p.handlers {
        var h := Spawn(p.handlers[k]);
        assert !IsOpen(h);
        assert below + [g', h] == (below + [g']) + [h];
        OpenPush(below, g');
        OpenPush(below + [g'], h);
      }
    case Running(g', w') =>
      OpenPush(below, g');
    case Finished(w') =>
    case Raised(e, w') =>
  }

  /** No turn of the run within `fuel` steps pops a generator that a
      StopIteration ended. */
  ghost predicate NoStopPops(p: Parser, stack: seq<Gen>, w: MyParser.World, fuel: nat)
    decreases fuel
  {
    stack == [] || fuel == 0 ||
    (var r := Resume(p, stack[|stack| - 1], w);
     && !(r.Raised? && r.err == StopIter)
     && match TrampolineStep(SpawnFor(p), Resumer(p), stack, w)
        case Halt(_) => true
        case Continue(s, w') => NoStopPops(p, s, w', fuel - 1))
  }

  /** A whole run of `trampoline_parse`: when it ends `Done` the builder is
      still at least at its root, and a run from a balanced start that never
      popped a StopIteration-ended generator closes every node it opened,
      leaving only the root. */
  lemma {:induction false} ParseBalance(p: Parser, stack: seq<Gen>, w: MyParser.World, fuel: nat)
    requires Depth(w.tree) >= 1 + Open(stack)
    ensures var o := TrampolineParse(SpawnFor(p), Resumer(p), stack, w, fuel);
            o.Done? ==> Depth(o.world.tree) >= 1
    ensures var o := TrampolineParse(SpawnFor(p), Resumer(p), stack, w, fuel);
            o.Done? && Balanced(stack, w) && NoStopPops(p, stack, w, fuel) ==> Depth(o.world.tree) == 1
    decreases fuel
  {
    if stack != [] && fuel > 0 {
      StepBalance(p, stack, w);
      var r := Resume(p, stack[|stack| - 1], w);
      assert Resumer(p)(stack[|stack| - 1], w) == r;
      match TrampolineStep(SpawnFor(p), Resumer(p), stack, w)
      case Halt(_) =>
      case Continue(s, w') =>
        ParseBalance(p, s, w', fuel - 1);
        if Balanced(stack, w) && NoStopPops(p, stack, w, fuel) {
          assert !r.Raised?;
        }
    }
  }

  /** The parse `parse_lineiter` runs starts balanced: a fresh builder and
      only `parse_start`'s generator on the stack. */
  lemma StartBalanced(w: MyParser.World)
    requires w.tree == TreeBuilder.Init()
    ensures Balanced([GStart(false)], w)
  {
    OpenPrefix([GStart(false)]);
  }

  // ------------------------------------------------------- entry points

  /** A syntax error whose message starts with "Line" is reported as
      "File '<name>', line ..."; any other is prefixed with
      "File '<name>', "; other exceptions are left alone. */
  lemma RewriteSpec(filename: string, msg: string)
    ensures var r := RewriteMessage(filename, msg);
            var prefix := "File '" + filename + "', ";
            && |r| == |prefix| + |msg| && r[..|prefix|] == prefix
            && (StartsWith(msg, "Line") ==> r[|prefix|] == 'l' && r[|prefix| + 1..] == msg[1..])
            && (!StartsWith(msg, "Line") ==> r[|prefix|..] == msg)
  {
    var prefix := "File '" + filename + "', ";
    if StartsWith(msg, "Line") {
      assert RewriteMessage(filename, msg) == prefix + ("l" + msg[1..]);
    } else {
      assert RewriteMessage(filename, msg) == prefix + msg;
    }
  }

  /** The DFA handler's "unexpected token" error reaches the caller as
      "File '<name>', line L, column C, unexpected 'T'.". */
  lemma {:induction false} UnexpectedReported(filename: string, t: Token)
    ensures RewriteError(filename, SyntaxErr(UnexpectedMessage(t)))
            == SyntaxErr("File '" + filename + "', line " + IntToDec(t.start.line) + ", column "
                         + IntToDec(t.start.col) + ", unexpected '" + t.text + "'.")
  {
    var rest := IntToDec(t.start.line) + ", column " + IntToDec(t.start.col) + ", unexpected '" + t.text + "'.";
    assert UnexpectedMessage(t) == "Line " + rest;
    RewriteLine(filename, rest);
  }

  /** A message "Line ..." becomes "File '<name>', line ...". */
  lemma RewriteLine(filename: string, rest: string)
    ensures RewriteMessage(filename, "Line " + rest) == "File '" + filename + "', line " + rest
  {
    var m := "Line " + rest;
    assert m[..4] == "Line";
    assert m[1..] == "ine " + rest;
    assert "File '" + filename + "', l" + ("ine " + rest) == "File '" + filename + "', line " + rest;
  }

  /** An IndentationError is rewritten like any SyntaxError; a TokenError
      (not a SyntaxError) is not. */
  lemma ErrorClasses(filename: string, msg: string, line: int, col: int)
    ensures RewriteError(filename, IndentationErr(msg, line, col)) == SyntaxErr(RewriteMessage(filename, msg))
    ensures RewriteError(filename, TokenErr(msg, line, col)) == TokenErr(msg, line, col)
  {
  }

  /** With an empty `env`: line numbers start from 1 (the lexer's counter
      from 0), columns are not shifted, and errors name "<unknown>". */
  lemma {:induction false} LineiterDefaults(p: Parser, lines: seq<string>, fuel: nat)
    ensures ParseLineiter(p, lines, map[], fuel)
            == ParseFrom(p, StartWorld(lines, 0, 0), fuel, "<unknown>")
  {
    assert IntSetting(map[], "lineno", 1) == Ok(1);
    assert IntSetting(map[], "column_offset", 0) == Ok(0);
  }

  /** With `lineno`, `column_offset` and `filename` given: the lexer's
      counter starts at `lineno - 1`, columns are shifted by the offset, and
      errors name the file as `"%s"` formats it; a string where a number is
      wanted is a TypeError. */
  lemma {:induction false} LineiterSettings(p: Parser, lines: seq<string>, env: Env, fuel: nat)
    requires "lineno" in env && "column_offset" in env && "filename" in env
    ensures (env["lineno"].EStr? || env["column_offset"].EStr?) ==> ParseLineiter(p, lines, env, fuel) == Failed(TypeErr)
    ensures env["lineno"].EInt? && env["column_offset"].EInt? ==>
              ParseLineiter(p, lines, env, fuel)
              == ParseFrom(p, StartWorld(lines, env["lineno"].i - 1, env["column_offset"].i), fuel, Show(env["filename"]))
  {
    var ln := IntSetting(env, "lineno", 1);
    var co := IntSetting(env, "column_offset", 0);
    if ln.Err? {
      assert ParseLineiter(p, lines, env, fuel) == Failed(ln.error);
    } else if co.Err? {
      assert ParseLineiter(p, lines, env, fuel) == Failed(co.error);
    } else {
      assert ParseLineiter(p, lines, env, fuel)
             == ParseFrom(p, StartWorld(lines, ln.value - 1, co.value), fuel, Show(env["filename"]));
    }
  }

  /** `parse_string` names the input "<string>" and `parse_file` the path,
      unless the caller's `env` already names it; no other setting
      changes. */
  lemma {:induction false} EntryNames(p: Parser, src: string, path: string, contents: string, env: Env, fuel: nat)
    ensures "filename" !in env ==>
              && ParseString(p, src, env, fuel) == ParseLineiter(p, SplitLines(src), env["filename" := EStr("<string>")], fuel)
              && ParseFile(p, path, contents, env, fuel) == ParseLineiter(p, SplitLines(contents), env["filename" := EStr(path)], fuel)
    ensures "filename" in env ==>
              && ParseString(p, src, env, fuel) == ParseLineiter(p, SplitLines(src), env, fuel)
              && ParseFile(p, path, contents, env, fuel) == ParseLineiter(p, SplitLines(contents), env, fuel)
  {
    if "filename" !in env {
      assert WithFilename(env, "<string>") == env["filename" := EStr("<string>")];
      assert WithFilename(env, path) == env["filename" := EStr(path)];
    }
  }

  // ------------------------------------------------------------- lines

  /** One line off the front. */
  lemma SplitLinesUnfold(s: string)
    requires s != ""
    ensures var n := LineLength(s, 0);
            var ls := SplitLines(s);
            && |ls| == 1 + |SplitLines(s[n..])| && ls[0] == s[..n] && ls[1..] == SplitLines(s[n..])
  {
  }

  /** The iterator's lines put back together are the input. */
  lemma {:induction false} SplitLinesConcat(s: string)
    ensures Concat(SplitLines(s)) == s
    decreases |s|
  {
    if s != "" {
      var n := LineLength(s, 0);
      var rest := SplitLines(s[n..]);
      assert SplitLines(s) == [s[..n]] + rest;
      SplitLinesConcat(s[n..]);
      ConcatSplit(s, n, rest);
    }
  }

  lemma ConcatSplit(s: string, n: nat, rest: seq<string>)
    requires n <= |s| && Concat(rest) == s[n..]
    ensures Concat([s[..n]] + rest) == s
  {
    ConcatCons(s[..n], rest);
    assert s == s[..n] + s[n..];
  }

  /** No line the iterator yields is empty. */
  lemma {:induction false} SplitLinesNonEmpty(s: string)
    ensures Capture.NoEmptyLines(SplitLines(s))
    decreases |s|
  {
    if s != "" {
      var n := LineLength(s, 0);
      var ls := SplitLines(s);
      SplitLinesUnfold(s);
      SplitLinesNonEmpty(s[n..]);
      forall i | 0 <= i < |ls|
        ensures ls[i] != ""
      {
        if i > 0 {
          assert ls[i] == ls[1..][i - 1];
        }
      }
    }
  }

  /** Line `i` has no '\n' before its last character, and that character
      is '\n' unless it is the last line. */
  predicate LineBreakAt(ls: seq<string>, i: int)
    requires 0 <= i < |ls|
  {
    && (forall j :: 0 <= j < |ls[i]| - 1 ==> ls[i][j] != '\n')
    && (i < |ls| - 1 ==> ls[i] != "" && ls[i][|ls[i]| - 1] == '\n')
  }

  /** Every line the iterator yields but the last ends with its only '\n',
      and the last has no '\n' before its end. */
  lemma {:induction false} SplitLinesBreaks(s: string)
    ensures var ls := SplitLines(s);
            forall i :: 0 <= i < |ls| ==> LineBreakAt(ls, i)
    decreases |s|
  {
    if s != "" {
      var n := LineLength(s, 0);
      var ls := SplitLines(s);
      var rest := SplitLines(s[n..]);
      SplitLinesUnfold(s);
      SplitLinesBreaks(s[n..]);
      forall i | 0 <= i < |ls|
        ensures LineBreakAt(ls, i)
      {
        if i > 0 {
          assert ls[i] == rest[i - 1];
          assert LineBreakAt(rest, i - 1);
        } else if i < |ls| - 1 {
          assert s[n..] != "";
        }
      }
    }
  }
}
