/** `trampoline.trampoline_parse` and the handlers `dfa_to_handler` makes.
    A handler is a generator; here its body runs one loop iteration per
    engine step, and `Running` marks a step that has not reached a `yield`.
    The engine keeps the explicit stack of suspended generators. */
module Trampoline {
  import opened Errors
  import opened Tokens
  import opened Trees
  import opened Accel
  import opened TokenStream
  import opened TreeBuilder
  import Text

  /** Keys of the handler table: nonterminal names and numbers. */
  datatype Key = NameKey(name: string) | NumKey(n: int)

  /** What one step of a generator did. */
  datatype Resumed<G, W> =
    | Yielded(key: Key, gen: G, world: W)
    | Running(gen: G, world: W)
    | Finished(world: W)
      /** An exception, with the world as the raise left it. */
    | Raised(err: Error, world: W)

  datatype Outcome<W> = Done(world: W) | Failed(err: Error) | OutOfFuel

  /** One turn of the `while generator_stack` loop. */
  datatype Turn<G, W> = Continue(stack: seq<G>, world: W) | Halt(outcome: Outcome<W>)

  /** Resume the top generator: a yielded key pushes the generator its handler
      makes (a missing key is a KeyError), an exhausted generator is popped.
      Under Python 2 a StopIteration escaping a generator's body ends that
      generator like a `return`, so the loop pops it too; any other exception
      ends the parse.  Its partner is the depth accounting of
      `MyParserProps.StepBalance` and `MyParserProps.ParseBalance`. */
  function TrampolineStep<G, W>(spawn: Key -> Option<G>, resume: (G, W) -> Resumed<G, W>, stack: seq<G>, w: W): (t: Turn<G, W>)
    requires |stack| > 0
    ensures t.Continue? ==> |t.stack| == |stack| + 1 || |t.stack| == |stack| || |t.stack| == |stack| - 1
    ensures t.Continue? ==> t.stack[..|stack| - 1] == stack[..|stack| - 1]
    ensures resume(stack[|stack| - 1], w).Yielded? && spawn(resume(stack[|stack| - 1], w).key).Some? ==>
              t.Continue? && |t.stack| == |stack| + 1
              && t.stack[|stack|] == spawn(resume(stack[|stack| - 1], w).key).value
              && t.stack[|stack| - 1] == resume(stack[|stack| - 1], w).gen
    ensures resume(stack[|stack| - 1], w).Finished? ==> t == Continue(stack[..|stack| - 1], resume(stack[|stack| - 1], w).world)
    ensures resume(stack[|stack| - 1], w).Raised? && resume(stack[|stack| - 1], w).err != StopIter ==>
              t == Halt(Failed(resume(stack[|stack| - 1], w).err))
    ensures resume(stack[|stack| - 1], w).Raised? && resume(stack[|stack| - 1], w).err == StopIter ==>
              t == Continue(stack[..|stack| - 1], resume(stack[|stack| - 1], w).world)
    ensures resume(stack[|stack| - 1], w).Running? ==>
              t == Continue(stack[..|stack| - 1] + [resume(stack[|stack| - 1], w).gen], resume(stack[|stack| - 1], w).world)
    ensures resume(stack[|stack| - 1], w).Yielded? && spawn(resume(stack[|stack| - 1], w).key).None? ==> t == Halt(Failed(KeyErr))
  {
    var n := |stack|;
    match resume(stack[n - 1], w)
    case Yielded(k, g, w') =>
      (match spawn(k)
       case Some(h) => Continue(stack[..n - 1] + [g, h], w')
       case None => Halt(Failed(KeyErr)))
    case Running(g, w') => Continue(stack[..n - 1] + [g], w')
    case Finished(w') => Continue(stack[..n - 1], w')
    case Raised(e, w') => if e == StopIter then Continue(stack[..n - 1], w') else Halt(Failed(e))
  }

  /** `trampoline_parse`, with a bound on the number of steps. */
  function TrampolineParse<G, W>(spawn: Key -> Option<G>, resume: (G, W) -> Resumed<G, W>, stack: seq<G>, w: W, fuel: nat): Outcome<W>
    decreases fuel
  {
    if stack == [] then Done(w)
    else if fuel == 0 then OutOfFuel
    else
      match TrampolineStep(spawn, resume, stack, w)
      case Halt(o) => o
      case Continue(s, w') => TrampolineParse(spawn, resume, s, w', fuel - 1)
  }

  /** The step bound only cuts a run short: a run that ends within `fuel`
      steps ends the same way with any larger bound. */
  lemma {:induction false} MoreFuelSameOutcome<G, W>(spawn: Key -> Option<G>, resume: (G, W) -> Resumed<G, W>, stack: seq<G>, w: W,
                                                     fuel: nat, more: nat)
    requires TrampolineParse(spawn, resume, stack, w, fuel) != OutOfFuel
    ensures TrampolineParse(spawn, resume, stack, w, fuel + more) == TrampolineParse(spawn, resume, stack, w, fuel)
    decreases fuel
  {
    if stack != [] {
      match TrampolineStep(spawn, resume, stack, w)
      case Halt(o) =>
      case Continue(s, w') =>
        MoreFuelSameOutcome(spawn, resume, s, w', fuel - 1, more);
    }
  }

  // ------------------------------------------------------------ DFA handlers

  /** The parse world every handler shares: the token stream and the tree. */
  datatype World<S> = World(stream: Stream<S>, tree: Builder)

  /** Where a DFA handler's generator is suspended. */
  datatype Phase =
    | NotStarted
      /** At the top of `while 1`, in the given state. */
    | Looping(state: DfaState)
      /** Suspended at `yield nt`; resumes at `states[resume]`. */
    | AfterPush(resume: int)

  /** One step of the handler `dfa_to_handler(classify, dfa, labels)` makes. */
  function DfaResume<S>(pull: S -> Pulled<S>, labels: seq<LabelEntry>, dfa: Dfa, ph: Phase, w: World<S>): (r: Resumed<Phase, World<S>>)
    ensures ph.NotStarted? && r.Running? ==> r.world.tree == Push(w.tree, Sym(dfa.name)) && r.gen.Looping?
    ensures ph.AfterPush? && r.Running? ==> r.world == w && r.gen.Looping?
    ensures r.Yielded? ==> ph.Looping? && r.key.NumKey? && r.world.tree == w.tree && r.gen.AfterPush?
    ensures r.Finished? ==> ph.Looping?
    ensures ph.NotStarted? && r.Raised? ==> r.world.tree == Push(w.tree, Sym(dfa.name))
    ensures ph.AfterPush? && r.Raised? ==> r.world == w
  {
    match ph
    case NotStarted =>
      var t := Push(w.tree, Sym(dfa.name));
      (match PyIndex(dfa.states, dfa.initial)
       case Ok(st) => Running(Looping(st), World(w.stream, t))
       case Err(e) => Raised(e, World(w.stream, t)))
    case AfterPush(i) =>
      (match PyIndex(dfa.states, i)
       case Ok(st) => Running(Looping(st), w)
       case Err(e) => Raised(e, w))
    case Looping(st) => DfaIteration(pull, labels, dfa, st, w)
  }

  /** One iteration of the handler's `while 1` loop in state `st`. */
  function DfaIteration<S>(pull: S -> Pulled<S>, labels: seq<LabelEntry>, dfa: Dfa, st: DfaState, w: World<S>): (r: Resumed<Phase, World<S>>)
    ensures r.Yielded? ==> r.key.NumKey? && r.world.tree == w.tree && r.gen.AfterPush?
    ensures r.Running? ==> r.gen.Looping? && Depth(r.world.tree) == Depth(w.tree)
    ensures r.Finished? && Depth(w.tree) >= 2 ==> Depth(r.world.tree) == Depth(w.tree) - 1
    ensures r.Raised? ==> Depth(r.world.tree) == Depth(w.tree)
  {
    match GetLookahead(pull, w.stream)
    case Err(e) => Raised(e, w)
    case Ok((t, s1)) =>
      var ilabel := Classify(labels, t);
      match Lookup(st, ilabel)
      case Err(e) => Raised(e, World(s1, w.tree))
      case Ok(Some(PushNt(nt, resume))) =>
        Yielded(NumKey(nt), AfterPush(resume), World(s1, w.tree))
      case Ok(Some(Shift(target))) =>
        (match GetToken(pull, s1)
         case Err(e) => Raised(e, World(s1, w.tree))
         case Ok((tok, s2)) =>
           var tree := PushPop(w.tree, Tok(tok));
           match PyIndex(dfa.states, target)
           case Err(e) => Raised(e, World(s2, tree))
           case Ok(st') =>
             if StopsAfterShift(st') then Finished(World(s2, Pop(tree)))
             else Running(Looping(st'), World(s2, tree)))
      case Ok(None) =>
        if st.accept then Finished(World(s1, Pop(w.tree)))
        else
          match Candidates(labels, st.lower, st.table)
          case Err(e) => Raised(e, World(s1, w.tree))
          case Ok(_) => Raised(SyntaxErr(UnexpectedMessage(t)), World(s1, w.tree))
  }

  // ------------------------------------------------------------ properties

  /** A SHIFT consumes the lookahead, appends it as a leaf of the handler's
      node and moves to `states[target]`; the handler then stops at once iff
      that state accepts and has exactly one arc.  The lookahead may have been
      buffered or pulled by this iteration's `get_lookahead`. */
  lemma {:induction false} ShiftStep<S>(pull: S -> Pulled<S>, labels: seq<LabelEntry>, dfa: Dfa, st: DfaState, w: World<S>,
                                        t: Token, s1: Stream<S>, target: int)
    requires GetLookahead(pull, w.stream) == Ok((t, s1))
    requires Lookup(st, Classify(labels, t)) == Ok(Some(Shift(target)))
    requires 0 <= target < |dfa.states|
    ensures var r := DfaIteration(pull, labels, dfa, st, w);
            var tree := PushPop(w.tree, Tok(t));
            && (StopsAfterShift(dfa.states[target]) ==> r == Finished(World(Stream(s1.src, None), Pop(tree))))
            && (!StopsAfterShift(dfa.states[target]) ==> r == Running(Looping(dfa.states[target]), World(Stream(s1.src, None), tree)))
  {
    LookaheadIdempotent(pull, w.stream);
    assert GetToken(pull, s1) == Ok((t, Stream(s1.src, None)));
  }

  /** With no applicable action the handler finishes iff the state accepts;
      otherwise it reports the lookahead's start position and text, unless
      collecting the candidate labels already raised IndexError. */
  lemma {:induction false} NoActionStep<S>(pull: S -> Pulled<S>, labels: seq<LabelEntry>, dfa: Dfa, st: DfaState, w: World<S>,
                                           t: Token, s1: Stream<S>)
    requires GetLookahead(pull, w.stream) == Ok((t, s1))
    requires Lookup(st, Classify(labels, t)) == Ok(None)
    ensures var r := DfaIteration(pull, labels, dfa, st, w);
            && (st.accept ==> r == Finished(World(s1, Pop(w.tree))))
            && (!st.accept && Candidates(labels, st.lower, st.table).Ok? ==>
                  r == Raised(SyntaxErr("Line " + Text.IntToDec(t.start.line) + ", column "
                                        + Text.IntToDec(t.start.col) + ", unexpected '" + t.text + "'."), World(s1, w.tree)))
            && (!st.accept && Candidates(labels, st.lower, st.table).Err? ==> r == Raised(IndexErr, World(s1, w.tree)))
  {
    CandidatesSpec(labels, st.lower, st.table);
  }

  /** A PUSH yields nonterminal `(entry >> 8) + NT_OFFSET`, consumes nothing
      beyond the lookahead it buffers, and resumes at `states[entry & 127]`. */
  lemma {:induction false} PushStep<S>(pull: S -> Pulled<S>, labels: seq<LabelEntry>, dfa: Dfa, st: DfaState, w: World<S>,
                                       t: Token, s1: Stream<S>, entry: int)
    requires GetLookahead(pull, w.stream) == Ok((t, s1))
    requires st.lower <= Classify(labels, t) < st.upper && Classify(labels, t) - st.lower < |st.table|
    requires st.table[Classify(labels, t) - st.lower] == entry && entry != -1 && Bit7(entry)
    ensures DfaIteration(pull, labels, dfa, st, w) == Yielded(NumKey(entry / 256 + NT_OFFSET), AfterPush(entry % 128), World(s1, w.tree))
    ensures s1.next == Some(t)
  {
    LookaheadIdempotent(pull, w.stream);
  }

  // ------------------------------------------------------------ handler table

  /** The keys `pgen_grammar_to_handlers` files a DFA's handler under. */
  predicate KeyOf(d: Dfa, k: Key) {
    k == NumKey(d.num) || k == NameKey(d.name)
  }

  /** The loop over the DFAs: each handler goes in under the DFA's number and
      its name, over whatever was there. */
  function AddDfaHandlers<H>(dfas: seq<Dfa>, handlers: map<Key, H>, mk: Dfa -> H): (r: map<Key, H>)
    ensures r.Keys == handlers.Keys + (set d | d in dfas :: NumKey(d.num)) + (set d | d in dfas :: NameKey(d.name))
    decreases |dfas|
  {
    if dfas == [] then handlers
    else
      var d := dfas[0];
      AddDfaHandlers(dfas[1..], handlers[NumKey(d.num) := mk(d)][NameKey(d.name) := mk(d)], mk)
  }

  /** `pgen_grammar_to_handlers`: requires the accelerator flag (an
      AssertionError otherwise) and adds one handler per DFA. */
  function PgenHandlers<H>(g: Grammar, handlers: map<Key, H>, mk: Dfa -> H): (r: Result<map<Key, H>>)
    ensures !g.accel <==> r == Err(AssertionErr)
    ensures g.accel ==> r == Ok(AddDfaHandlers(g.dfas, handlers, mk))
  {
    if !g.accel then Err(AssertionErr) else Ok(AddDfaHandlers(g.dfas, handlers, mk))
  }

  /** A key no DFA uses keeps its handler, or stays absent. */
  lemma {:induction false} UnusedKeyKept<H>(dfas: seq<Dfa>, handlers: map<Key, H>, mk: Dfa -> H, k: Key)
    requires forall i :: 0 <= i < |dfas| ==> !KeyOf(dfas[i], k)
    ensures var r := AddDfaHandlers(dfas, handlers, mk);
            && (k in handlers <==> k in r)
            && (k in handlers ==> r[k] == handlers[k])
    decreases |dfas|
  {
    if dfas != [] {
      var d := dfas[0];
      var h' := handlers[NumKey(d.num) := mk(d)][NameKey(d.name) := mk(d)];
      assert !KeyOf(d, k);
      forall j | 0 <= j < |dfas| - 1
        ensures !KeyOf(dfas[1..][j], k)
      {
        assert dfas[1..][j] == dfas[j + 1];
      }
      UnusedKeyKept(dfas[1..], h', mk, k);
    }
  }

  /** The last DFA filed under a key wins. */
  lemma {:induction false} LastDfaWins<H>(dfas: seq<Dfa>, handlers: map<Key, H>, mk: Dfa -> H, k: Key, i: nat)
    requires i < |dfas| && KeyOf(dfas[i], k)
    requires forall j :: i < j < |dfas| ==> !KeyOf(dfas[j], k)
    ensures var r := AddDfaHandlers(dfas, handlers, mk);
            k in r && r[k] == mk(dfas[i])
    decreases |dfas|
  {
    var d := dfas[0];
    var h' := handlers[NumKey(d.num) := mk(d)][NameKey(d.name) := mk(d)];
    if i > 0 {
      assert dfas[1..][i - 1] == dfas[i];
      forall j | i - 1 < j < |dfas| - 1
        ensures !KeyOf(dfas[1..][j], k)
      {
        assert dfas[1..][j] == dfas[j + 1];
      }
      LastDfaWins(dfas[1..], h', mk, k, i - 1);
    } else {
      forall j | 0 <= j < |dfas| - 1
        ensures !KeyOf(dfas[1..][j], k)
      {
        assert dfas[1..][j] == dfas[j + 1];
      }
      UnusedKeyKept(dfas[1..], h', mk, k);
    }
  }
}
