/** `mython.myparser.MyParser`: the trampoline handler table for the
    composed Python-plus-Mython grammar, the hand-written handlers for
    `mysuite`, `myexpr0` and `myexpr1` that switch the lexer into its
    capture modes, and the entry points that set up a parse and rewrite its
    syntax errors. */
module MyParser {
  import opened Errors
  import opened Text
  import opened Tokens
  import opened Trees
  import opened Accel
  import opened TokenStream
  import opened TreeBuilder
  import opened Trampoline
  import opened Lexer
  import LX = Lexer

  /** What the handler table holds: `parse_start`, a DFA handler, or one of
      the two overrides (`parse_myexpr0` and `parse_myexpr1` are the same
      method). */
  datatype Handler = HStart | HDfa(dfa: Dfa) | HSuite | HExpr

  /** A handler's generator, as far as it has run. */
  datatype Gen =
    | GStart(yielded: bool)
    | GDfa(dfa: Dfa, phase: Phase)
    | GSuite
    | GExpr

  function Spawn(h: Handler): (g: Gen)
    ensures h.HDfa? <==> g.GDfa?
    ensures g.GDfa? ==> g.phase.NotStarted? && g.dfa == h.dfa
    ensures h.HStart? <==> g == GStart(false)
  {
    match h
    case HStart => GStart(false)
    case HDfa(d) => GDfa(d, NotStarted)
    case HSuite => GSuite
    case HExpr => GExpr
  }

  /** The nonterminals whose DFA handlers are replaced. */
  function OverrideFor(name: string): (r: Option<Handler>)
    ensures r.Some? <==> name in {"mysuite", "myexpr0", "myexpr1"}
    ensures r.Some? ==> (r.value == HSuite <==> name == "mysuite") && (r.value.HSuite? || r.value.HExpr?)
  {
    if name == "mysuite" then Some(HSuite)
    else if name == "myexpr0" || name == "myexpr1" then Some(HExpr)
    else None
  }

  /** The override loop of `__init__`, in the grammar's DFA order. */
  function AddOverrides(dfas: seq<Dfa>, handlers: map<Key, Handler>): (r: map<Key, Handler>)
    ensures handlers.Keys <= r.Keys
    decreases |dfas|
  {
    if dfas == [] then handlers
    else
      var d := dfas[0];
      match OverrideFor(d.name)
      case None => AddOverrides(dfas[1..], handlers)
      case Some(h) => AddOverrides(dfas[1..], handlers[NameKey(d.name) := h][NumKey(d.num) := h])
  }

  /** The handler `pgen_grammar_to_handlers` files for a DFA. */
  function DfaHandler(d: Dfa): Handler {
    HDfa(d)
  }

  /** A parser: the token recogniser the lexer uses, the composed grammar,
      the handler table and the start symbol. */
  datatype Parser = Parser(rec: Recogniser, grammar: Grammar, handlers: map<Key, Handler>, startSymbol: string)

  /** `MyParser.__init__`, given the composed grammar (the composition itself
      is not part of this model). */
  function NewParser(rec: Recogniser, grammar: Grammar, startSymbol: Option<string>): (r: Result<Parser>)
    ensures r.Ok? <==> grammar.accel
    ensures r.Ok? ==> r.value.startSymbol == startSymbol.GetOr("file_input") && r.value.grammar == grammar
    ensures r.Ok? ==> NameKey("start") in r.value.handlers && r.value.handlers[NameKey("start")] == HStart
  {
    var hs :- PgenHandlers(grammar, map[], DfaHandler);
    var hs2 := AddOverrides(grammar.dfas, hs);
    Ok(Parser(rec, grammar, hs2[NameKey("start") := HStart], startSymbol.GetOr("file_input")))
  }

  // ------------------------------------------------------------- handlers

  type World = Trampoline.World<Lexer>

  function Pull(rec: Recogniser): Lexer -> Pulled<Lexer> {
    (lx: Lexer) => Tokenize(rec, lx)
  }

  /** `parse_mysuite`: switch the lexer to suite capture, take the ':' into
      the enclosing node, then a `mysuite` node holding NEWLINE and MYSUITE
      in the order the lookahead shows. */
  function ParseMysuite(rec: Recogniser, w: World): (r: Resumed<Gen, World>)
    ensures !r.Yielded? && !r.Running?
  {
    SuiteHandler(Pull(rec), Stream(StartMysuite(w.stream.src), w.stream.next), w.tree)
  }

  /** The part of `parse_mysuite` after the switch, over any token source. */
  function SuiteHandler<S>(pull: S -> Pulled<S>, s0: Stream<S>, tree: Builder): (r: Resumed<Gen, Trampoline.World<S>>)
    ensures !r.Yielded? && !r.Running?
  {
    match Expect(pull, s0, {TextIs(":")})
    case Err(e) => Raised(e, Trampoline.World(s0, tree))
    case Ok(c) =>
      var t1 := Push(PushPop(tree, Tok(c.0)), Sym("mysuite"));
      match TestLookahead(pull, c.1, {KindIs(NEWLINE)})
      case Err(e) => Raised(e, Trampoline.World(c.1, t1))
      case Ok(l) =>
        var first := if l.0 then NEWLINE else MYSUITE;
        var second := if l.0 then MYSUITE else NEWLINE;
        match Expect(pull, l.1, {KindIs(first)})
        case Err(e) => Raised(e, Trampoline.World(l.1, t1))
        case Ok(a) =>
          var t2 := PushPop(t1, Tok(a.0));
          match Expect(pull, a.1, {KindIs(second)})
          case Err(e) => Raised(e, Trampoline.World(a.1, t2))
          case Ok(b) => Finished(Trampoline.World(b.1, Pop(PushPop(t2, Tok(b.0)))))
  }

  /** `parse_myexpr`: a `myexpr` node holding the opening delimiter, taken
      from any of the four, and the MYEXPR token the lexer captures once
      `start_myexpr` has recorded that delimiter. */
  function ParseMyexpr(rec: Recogniser, w: World): (r: Resumed<Gen, World>)
    ensures !r.Yielded? && !r.Running?
  {
    ExprHandler(Pull(rec), (lx: Lexer, t: Token) => StartMyexpr(lx, t), w.stream, w.tree)
  }

  /** `parse_myexpr` over any token source, `switch` being `start_myexpr`. */
  function ExprHandler<S>(pull: S -> Pulled<S>, switch: (S, Token) -> S, s: Stream<S>, tree: Builder)
    : (r: Resumed<Gen, Trampoline.World<S>>)
    ensures !r.Yielded? && !r.Running?
  {
    var t0 := Push(tree, Sym("myexpr"));
    match Expect(pull, s, {TextIs("("), TextIs("["), TextIs("{"), TextIs("<")})
    case Err(e) => Raised(e, Trampoline.World(s, t0))
    case Ok(d) =>
      var s1 := Stream(switch(d.1.src, d.0), d.1.next);
      var t1 := PushPop(t0, Tok(d.0));
      match Expect(pull, s1, {KindIs(MYEXPR)})
      case Err(e) => Raised(e, Trampoline.World(s1, t1))
      case Ok(x) => Finished(Trampoline.World(x.1, Pop(PushPop(t1, Tok(x.0)))))
  }

  /** Lift a DFA handler's step to the generator type. */
  function LiftDfa(d: Dfa, r: Resumed<Phase, World>): (o: Resumed<Gen, World>)
    ensures r.Yielded? <==> o.Yielded?
    ensures r.Yielded? ==> o.key == r.key && o.gen == GDfa(d, r.gen) && o.world == r.world
    ensures r.Running? ==> o == Running(GDfa(d, r.gen), r.world)
    ensures r.Finished? ==> o == Finished(r.world)
    ensures r.Raised? ==> o == Raised(r.err, r.world)
  {
    match r
    case Yielded(k, ph, w) => Yielded(k, GDfa(d, ph), w)
    case Running(ph, w) => Running(GDfa(d, ph), w)
    case Finished(w) => Finished(w)
    case Raised(e, w) => Raised(e, w)
  }

  /** One resumption of any generator of the table. */
  function Resume(p: Parser, g: Gen, w: World): Resumed<Gen, World> {
    match g
    case GStart(false) => Yielded(NameKey(p.startSymbol), GStart(true), w)
    case GStart(true) => Finished(w)
    case GDfa(d, ph) => LiftDfa(d, DfaResume(Pull(p.rec), p.grammar.labels, d, ph, w))
    case GSuite => ParseMysuite(p.rec, w)
    case GExpr => ParseMyexpr(p.rec, w)
  }

  function SpawnFor(p: Parser): Key -> Option<Gen> {
    (k: Key) => if k in p.handlers then Some(Spawn(p.handlers[k])) else None
  }

  function Resumer(p: Parser): (Gen, World) -> Resumed<Gen, World> {
    (g: Gen, w: World) => Resume(p, g, w)
  }

  // -------------------------------------------------------- entry points

  /** Values a caller may put in `env`. */
  datatype EnvVal = EInt(i: int) | EStr(s: string)

  type Env = map<string, EnvVal>

  /** `"%s" % value`. */
  function Show(v: EnvVal): string {
    match v
    case EInt(i) => IntToDec(i)
    case EStr(s) => s
  }

  /** `env.get(key, default)` for an integer setting; a string there fails
      the source's arithmetic with a TypeError. */
  function IntSetting(env: Env, key: string, default: int): (r: Result<int>)
    ensures key !in env ==> r == Ok(default)
    ensures key in env && env[key].EInt? ==> r == Ok(env[key].i)
    ensures key in env && env[key].EStr? ==> r == Err(TypeErr)
  {
    if key !in env then Ok(default)
    else match env[key]
      case EInt(i) => Ok(i)
      case EStr(_) => Err(TypeErr)
  }

  /** The message `parse_lineiter` raises in place of a SyntaxError's. */
  function RewriteMessage(filename: string, msg: string): string {
    if StartsWith(msg, "Line") then "File '" + filename + "', l" + msg[1..]
    else "File '" + filename + "', " + msg
  }

  /** The syntax errors the rewrite applies to become plain SyntaxErrors;
      other exceptions pass through. */
  function RewriteError(filename: string, e: Error): (r: Error)
    ensures e.IsSyntaxError() ==> r == SyntaxErr(RewriteMessage(filename, e.Message()))
    ensures !e.IsSyntaxError() ==> r == e
  {
    if e.IsSyntaxError() then SyntaxErr(RewriteMessage(filename, e.Message())) else e
  }

  /** The stack and world `trampoline_parse` starts from. */
  function StartWorld(lines: seq<string>, lineOffset: int, columnOffset: int): (w: World)
    ensures w.stream == Fresh(LX.Init(lines, lineOffset, columnOffset)) && w.tree == TreeBuilder.Init()
  {
    World(Fresh(LX.Init(lines, lineOffset, columnOffset)), TreeBuilder.Init())
  }

  /** `parse_lineiter` over the lines the iterator yields, with a step bound
      on the trampoline. */
  function ParseLineiter(p: Parser, lines: seq<string>, env: Env, fuel: nat): Outcome<Node> {
    match IntSetting(env, "lineno", 1)
    case Err(e) => Failed(e)
    case Ok(lineno) =>
      match IntSetting(env, "column_offset", 0)
      case Err(e) => Failed(e)
      case Ok(col) =>
        var filename := if "filename" in env then Show(env["filename"]) else "<unknown>";
        ParseFrom(p, StartWorld(lines, lineno - 1, col), fuel, filename)
  }

  /** The trampoline run from `parse_start` over a prepared world, its
      outcome reported under `filename`. */
  function ParseFrom(p: Parser, w: World, fuel: nat, filename: string): Outcome<Node> {
    Finish(TrampolineParse(SpawnFor(p), Resumer(p), [GStart(false)], w, fuel), filename)
  }

  /** What `parse_lineiter` makes of the trampoline's outcome: the tree, or
      the exception with any syntax error rewritten. */
  function Finish(o: Outcome<World>, filename: string): (r: Outcome<Node>)
    ensures o.Done? <==> r.Done?
    ensures o.Done? ==> r.world == Tree(o.world.tree)
    ensures o.Failed? ==> r == Failed(RewriteError(filename, o.err))
    ensures o.OutOfFuel? <==> r.OutOfFuel?
  {
    match o
    case Done(w) => Done(Tree(w.tree))
    case Failed(e) => Failed(RewriteError(filename, e))
    case OutOfFuel => OutOfFuel
  }

  /** `env`, with `filename` filled in when the caller left it out. */
  function WithFilename(env: Env, name: string): (r: Env)
    ensures "filename" in r
    ensures "filename" in env ==> r == env
    ensures "filename" !in env ==> r["filename"] == EStr(name)
    ensures r.Keys == env.Keys + {"filename"}
    ensures forall k :: k in env && k != "filename" ==> r[k] == env[k]
  {
    if "filename" in env then env else env["filename" := EStr(name)]
  }

  /** `parse_string`. */
  function ParseString(p: Parser, src: string, env: Env, fuel: nat): Outcome<Node> {
    ParseLineiter(p, SplitLines(src), WithFilename(env, "<string>"), fuel)
  }

  /** `parse_file`, given the file's contents. */
  function ParseFile(p: Parser, path: string, contents: string, env: Env, fuel: nat): Outcome<Node> {
    ParseLineiter(p, SplitLines(contents), WithFilename(env, path), fuel)
  }

  /** The lines a file object or `StringIO` yields: each ends at and keeps
      its '\n'; a last line without one is yielded as it is. */
  function SplitLines(s: string): (r: seq<string>)
    decreases |s|
  {
    if s == "" then []
    else
      var n := LineLength(s, 0);
      [s[..n]] + SplitLines(s[n..])
  }

  /** The length of the first line of `s` (through its '\n', if any), scanning from `i`. */
  function LineLength(s: string, i: nat): (n: nat)
    requires i < |s|
    requires forall j :: 0 <= j < i ==> s[j] != '\n'
    ensures i < n <= |s|
    ensures forall j :: 0 <= j < n - 1 ==> s[j] != '\n'
    ensures s[n - 1] == '\n' || n == |s|
    decreases |s| - i
  {
    if s[i] == '\n' || i + 1 == |s| then i + 1 else LineLength(s, i + 1)
  }
}
