/** The tree-walking and folding helpers of `mython.lang.python.astify`'s
    `MyHandler`, over abstract targets: what a handler makes of a child is a
    parameter, and the Python `ast` nodes they build are small datatypes
    without line and column attributes. */
module Astify {
  import opened Errors
  import opened Tokens
  import opened Trees

  // ------------------------------------------------------------ sequences

  function Rev<T>(s: seq<T>): (r: seq<T>)
    ensures |r| == |s|
    ensures forall i :: 0 <= i < |s| ==> r[i] == s[|s| - 1 - i]
  {
    if s == [] then [] else Rev(s[1..]) + [s[0]]
  }

  lemma RevAppend<T>(a: seq<T>, b: seq<T>)
    ensures Rev(a + b) == Rev(b) + Rev(a)
  {
    assert forall i :: 0 <= i < |a + b| ==> Rev(a + b)[i] == (Rev(b) + Rev(a))[i];
  }

  lemma RevRev<T>(s: seq<T>)
    ensures Rev(Rev(s)) == s
  {
    assert forall i :: 0 <= i < |s| ==> Rev(Rev(s))[i] == s[i];
  }

  // --------------------------------------------------------------- tokens

  /** Nodes in a tree, counting the tree itself. */
  function Size(n: Node): nat
    decreases n, 0
  {
    1 + SizeOf(n.children)
  }

  function SizeOf(ns: seq<Node>): nat
    decreases ns, 1
  {
    if ns == [] then 0 else Size(ns[0]) + SizeOf(ns[1..])
  }

  lemma {:induction false} SizeOfAppend(a: seq<Node>, b: seq<Node>)
    ensures SizeOf(a + b) == SizeOf(a) + SizeOf(b)
    decreases |a|
  {
    if a != [] {
      assert (a + b)[0] == a[0];
      assert (a + b)[1..] == a[1..] + b;
      SizeOfAppend(a[1..], b);
    } else {
      assert a + b == b;
    }
  }

  lemma {:induction false} SizeOfRev(s: seq<Node>)
    ensures SizeOf(Rev(s)) == SizeOf(s)
    decreases |s|
  {
    if s != [] {
      SizeOfRev(s[1..]);
      SizeOfAppend(Rev(s[1..]), [s[0]]);
      assert SizeOf([s[0]]) == Size(s[0]);
    }
  }

  /** `_get_tokens`: the token labels of the tree, by the source's walk with
      an explicit stack of pending nodes (top at the end, children pushed in
      reverse); it yields the same labels as the recursive traversal, and
      only the token itself for a token node. */
  method GetTokens(n: Node) returns (out: seq<Label>)
    ensures out == Leaves(n)
  {
    if IsToken(n) {
      return [n.data];
    }
    var stack := Rev(n.children);
    RevRev(n.children);
    out := [];
    while stack != []
      invariant out + LeavesOf(Rev(stack)) == Leaves(n)
      decreases SizeOf(stack)
    {
      var cur := stack[|stack| - 1];
      var below := stack[..|stack| - 1];
      assert stack == below + [cur];
      if IsToken(cur) {
        PopToken(out, below, cur, n);
        out := out + [cur.data];
        stack := below;
      } else {
        PopExpand(out, below, cur, n);
        stack := below + Rev(cur.children);
      }
    }
  }

  /** A token on top of the stack is yielded. */
  lemma PopToken(out: seq<Label>, below: seq<Node>, cur: Node, n: Node)
    requires IsToken(cur) && out + LeavesOf(Rev(below + [cur])) == Leaves(n)
    ensures (out + [cur.data]) + LeavesOf(Rev(below)) == Leaves(n)
    ensures SizeOf(below) < SizeOf(below + [cur])
  {
    PopStep(below, cur);
  }

  /** A nonterminal on top of the stack is replaced by its children. */
  lemma PopExpand(out: seq<Label>, below: seq<Node>, cur: Node, n: Node)
    requires !IsToken(cur) && out + LeavesOf(Rev(below + [cur])) == Leaves(n)
    ensures out + LeavesOf(Rev(below + Rev(cur.children))) == Leaves(n)
    ensures SizeOf(below + Rev(cur.children)) < SizeOf(below + [cur])
  {
    PopStep(below, cur);
    ExpandStep(below, cur);
  }

  /** Taking the top node off the stack. */
  lemma PopStep(below: seq<Node>, cur: Node)
    ensures LeavesOf(Rev(below + [cur])) == Leaves(cur) + LeavesOf(Rev(below))
    ensures SizeOf(below + [cur]) == SizeOf(below) + Size(cur)
  {
    RevAppend(below, [cur]);
    assert Rev([cur]) == [cur];
    LeavesOfAppend([cur], Rev(below));
    assert LeavesOf([cur]) == Leaves(cur);
    SizeOfAppend(below, [cur]);
    assert SizeOf([cur]) == Size(cur);
  }

  /** Putting a nonterminal's children on the stack in its place. */
  lemma ExpandStep(below: seq<Node>, cur: Node)
    requires !IsToken(cur)
    ensures LeavesOf(Rev(below + Rev(cur.children))) == Leaves(cur) + LeavesOf(Rev(below))
    ensures SizeOf(below + Rev(cur.children)) < SizeOf(below) + Size(cur)
  {
    var pushed := Rev(cur.children);
    RevAppend(below, pushed);
    RevRev(cur.children);
    LeavesOfAppend(cur.children, Rev(below));
    SizeOfAppend(below, pushed);
    SizeOfRev(cur.children);
  }

  // ------------------------------------------------------------- location

  /** `_get_location`: follow first children down to a token and give its
      start; a nonterminal without children is an IndexError, and so is a
      flat tuple kept as a leaf, which has no position element. */
  function Location(n: Node): (r: Result<Pos>)
    ensures r.Err? ==> r.error == IndexErr
    decreases n
  {
    if IsToken(n) then
      match n.data
      case Tok(t) => Ok(t.start)
      case _ => Err(IndexErr)
    else if n.children == [] then Err(IndexErr)
    else Location(n.children[0])
  }

  /** Every nonterminal on the path of first children has a child. */
  predicate LeftPathFull(n: Node)
    decreases n
  {
    IsToken(n) || (n.children != [] && LeftPathFull(n.children[0]))
  }

  /** The location is the start of the first token `_get_tokens` yields when
      the path of first children reaches a token, and an IndexError when it
      does not. */
  lemma {:induction false} LocationIsFirstToken(n: Node)
    ensures !LeftPathFull(n) ==> Location(n) == Err(IndexErr)
    ensures LeftPathFull(n) ==> Leaves(n) != []
    ensures LeftPathFull(n) && Leaves(n)[0].Tok? ==> Location(n) == Ok(Leaves(n)[0].token.start)
    ensures LeftPathFull(n) && !Leaves(n)[0].Tok? ==> Location(n) == Err(IndexErr)
    decreases n
  {
    if !IsToken(n) && n.children != [] {
      LocationIsFirstToken(n.children[0]);
      assert n.children == [n.children[0]] + n.children[1..];
      LeavesOfAppend([n.children[0]], n.children[1..]);
      assert LeavesOf([n.children[0]]) == Leaves(n.children[0]);
    }
  }

  // -------------------------------------------------------- _flatten_once

  /** An element of the list `_flatten_once` is given: a list, or anything
      else. */
  datatype Elem<T> = Single(x: T) | List(xs: seq<T>)

  function Piece<T>(e: Elem<T>): seq<T> {
    match e
    case Single(x) => [x]
    case List(xs) => xs
  }

  /** The reference: each list spliced in, each other element kept. */
  function Flatten<T>(es: seq<Elem<T>>): seq<T>
    decreases |es|
  {
    if es == [] then [] else Flatten(es[..|es| - 1]) + Piece(es[|es| - 1])
  }

  /** The lengths of the lists, summed. */
  function ListLengths<T>(es: seq<Elem<T>>): nat
    decreases |es|
  {
    if es == [] then 0 else (if es[0].List? then |es[0].xs| else 0) + ListLengths(es[1..])
  }

  /** How many elements are not lists. */
  function Singles<T>(es: seq<Elem<T>>): nat
    decreases |es|
  {
    if es == [] then 0 else (if es[0].Single? then 1 else 0) + Singles(es[1..])
  }

  /** `_flatten_once`. */
  method FlattenOnce<T>(es: seq<Elem<T>>) returns (r: seq<T>)
    ensures r == Flatten(es)
  {
    r := [];
    var i := 0;
    while i < |es|
      invariant 0 <= i <= |es|
      invariant r == Flatten(es[..i])
    {
      assert es[..i + 1][..i] == es[..i];
      if es[i].List? {
        r := r + es[i].xs;
      } else {
        r := r + [es[i].x];
      }
      i := i + 1;
    }
    assert es[..i] == es;
  }

  lemma {:induction false} FlattenCons<T>(e: Elem<T>, es: seq<Elem<T>>)
    ensures Flatten([e] + es) == Piece(e) + Flatten(es)
    decreases |es|
  {
    if es != [] {
      var all := [e] + es;
      assert all[..|all| - 1] == [e] + es[..|es| - 1];
      FlattenCons(e, es[..|es| - 1]);
    } else {
      assert [e] + es == [e];
      assert ([e] + es)[..0] == [];
    }
  }

  /** The output is as long as the lists' lengths plus the other elements. */
  lemma {:induction false} FlattenLength<T>(es: seq<Elem<T>>)
    ensures |Flatten(es)| == ListLengths(es) + Singles(es)
    decreases |es|
  {
    if es != [] {
      assert es == [es[0]] + es[1..];
      FlattenCons(es[0], es[1..]);
      FlattenLength(es[1..]);
    }
  }

  /** A value is in the output exactly when it is one of the non-list
      elements or inside one of the lists. */
  lemma {:induction false} FlattenMembers<T>(es: seq<Elem<T>>, x: T)
    ensures x in Flatten(es) <==> exists i :: 0 <= i < |es| && x in Piece(es[i])
    decreases |es|
  {
    if es != [] {
      var init := es[..|es| - 1];
      FlattenMembers(init, x);
      if x in Flatten(es) && x !in Flatten(init) {
        assert x in Piece(es[|es| - 1]);
      }
      forall i | 0 <= i < |init|
        ensures Piece(init[i]) == Piece(es[i])
      {
      }
    }
  }

  // ---------------------------------------------------- _handle_left_binop

  /** A chain of binary operations over the children's results. */
  datatype BinTree<A, O> = Operand(a: A) | BinOp(left: BinTree<A, O>, op: O, right: BinTree<A, O>)

  /** The reference fold: `e0 op1 e1 op2 e2 ...` grouped to the left. */
  function FoldLeft<A, O>(rs: seq<A>, mkOp: A -> O): BinTree<A, O>
    requires |rs| % 2 == 1
    decreases |rs|
  {
    if |rs| == 1 then Operand(rs[0])
    else BinOp(FoldLeft(rs[..|rs| - 2], mkOp), mkOp(rs[|rs| - 2]), Operand(rs[|rs| - 1]))
  }

  /** `_handle_left_binop`, given the handled children: one child passes
      through; three or more are folded to the left, the loop over
      `range(4, len, 2)` leaving a trailing even-numbered result out; no
      child, or two, index past the end. */
  method LeftBinop<A, O>(rs: seq<A>, mkOp: A -> O) returns (r: Result<BinTree<A, O>>)
    ensures |rs| == 0 || |rs| == 2 ==> r == Err(IndexErr)
    ensures |rs| == 1 ==> r == Ok(Operand(rs[0]))
    ensures |rs| >= 3 && |rs| % 2 == 1 ==> r == Ok(FoldLeft(rs, mkOp))
    ensures |rs| >= 4 && |rs| % 2 == 0 ==> r == Ok(FoldLeft(rs[..|rs| - 1], mkOp))
  {
    if |rs| == 0 {
      return Err(IndexErr);
    }
    if |rs| == 1 {
      return Ok(Operand(rs[0]));
    }
    if |rs| == 2 {
      return Err(IndexErr);
    }
    var acc := BinOp(Operand(rs[0]), mkOp(rs[1]), Operand(rs[2]));
    assert rs[..3][..1] == rs[..1];
    var i := 4;
    while i < |rs|
      invariant 4 <= i <= |rs| + 1 && i % 2 == 0
      invariant acc == FoldLeft(rs[..i - 1], mkOp)
    {
      assert rs[..i + 1][..i - 1] == rs[..i - 1];
      acc := BinOp(acc, mkOp(rs[i - 1]), Operand(rs[i]));
      i := i + 2;
    }
    if |rs| % 2 == 1 {
      assert rs[..i - 1] == rs;
    }
    return Ok(acc);
  }

  /** The operands, left to right. */
  function Operands<A, O>(t: BinTree<A, O>): seq<A> {
    match t
    case Operand(a) => [a]
    case BinOp(l, _, r) => Operands(l) + Operands(r)
  }

  /** The operators, left to right. */
  function Operators<A, O>(t: BinTree<A, O>): seq<O> {
    match t
    case Operand(_) => []
    case BinOp(l, o, r) => Operators(l) + [o] + Operators(r)
  }

  /** Every right operand is a single child's result: the chain leans left. */
  predicate LeansLeft<A, O>(t: BinTree<A, O>) {
    match t
    case Operand(_) => true
    case BinOp(l, _, r) => r.Operand? && LeansLeft(l)
  }

  /** The fold leans left and keeps the operands (the even-numbered
      results) and the operators (the odd-numbered ones) in their order. */
  lemma {:induction false} FoldLeftShape<A, O>(rs: seq<A>, mkOp: A -> O)
    requires |rs| % 2 == 1
    ensures LeansLeft(FoldLeft(rs, mkOp))
    ensures var t := FoldLeft(rs, mkOp);
            && |Operands(t)| == |rs| / 2 + 1 && |Operators(t)| == |rs| / 2
            && (forall k :: 0 <= k < |Operands(t)| ==> Operands(t)[k] == rs[2 * k])
            && (forall k :: 0 <= k < |Operators(t)| ==> Operators(t)[k] == mkOp(rs[2 * k + 1]))
    decreases |rs|
  {
    var n := |rs| / 2;
    assert |rs| == 2 * n + 1;
    if |rs| > 1 {
      var init := rs[..|rs| - 2];
      assert |init| == 2 * (n - 1) + 1 && |init| / 2 == n - 1;
      FoldLeftShape(init, mkOp);
      var t := FoldLeft(rs, mkOp);
      var l := FoldLeft(init, mkOp);
      assert t == BinOp(l, mkOp(rs[2 * n - 1]), Operand(rs[2 * n]));
      assert Operands(t) == Operands(l) + [rs[2 * n]];
      assert Operators(t) == Operators(l) + [mkOp(rs[2 * n - 1])];
      forall k | 0 <= k < n + 1
        ensures Operands(t)[k] == rs[2 * k]
      {
        if k < n {
          assert Operands(t)[k] == Operands(l)[k] == init[2 * k];
        }
      }
      forall k | 0 <= k < n
        ensures Operators(t)[k] == mkOp(rs[2 * k + 1])
      {
        if k < n - 1 {
          assert Operators(t)[k] == Operators(l)[k] == mkOp(init[2 * k + 1]);
        }
      }
    }
  }

  // --------------------------------------------------------- elif chains

  /** The statements `handle_if_stmt` builds; anything else a suite holds is
      `Other`. */
  datatype Stmt<E> = If(test: E, body: seq<Stmt<E>>, orelse: seq<Stmt<E>>) | Other(e: E)

  /** The child is the keyword token `w`. */
  predicate IsKeyword(n: Node, w: string) {
    n.data.Tok? && n.data.token.text == w
  }

  /** The reference nesting: each elif clause the only statement of the
      previous one's `orelse`, the else suite (or nothing) innermost. */
  function Chain<E>(elifs: seq<(E, seq<Stmt<E>>)>, final: seq<Stmt<E>>): seq<Stmt<E>>
    decreases |elifs|
  {
    if elifs == [] then final else [If(elifs[0].0, elifs[0].1, Chain(elifs[1..], final))]
  }

  /** The `elif` groups of an `if_stmt`'s children from `i` on:
      `'elif' test ':' suite`, repeated. */
  function ElifsFrom<E>(c: seq<Node>, i: nat, test: Node -> E, suite: Node -> seq<Stmt<E>>): seq<(E, seq<Stmt<E>>)>
    decreases |c| - i
  {
    if i + 3 < |c| && IsKeyword(c[i], "elif") then [(test(c[i + 1]), suite(c[i + 3]))] + ElifsFrom(c, i + 4, test, suite)
    else []
  }

  /** Where the `elif` groups end. */
  function ElifsEnd(c: seq<Node>, i: nat): (e: nat)
    ensures e >= i
    decreases |c| - i
  {
    if i + 3 < |c| && IsKeyword(c[i], "elif") then ElifsEnd(c, i + 4) else i
  }

  /** One more `elif` group. */
  lemma ElifStep<E>(c: seq<Node>, i: nat, test: Node -> E, suite: Node -> seq<Stmt<E>>)
    requires i + 3 < |c| && IsKeyword(c[i], "elif")
    ensures ElifsFrom(c, i, test, suite) == [(test(c[i + 1]), suite(c[i + 3]))] + ElifsFrom(c, i + 4, test, suite)
    ensures ElifsEnd(c, i) == ElifsEnd(c, i + 4)
  {
  }

  /** No `elif` group at `i`: the groups end there. */
  lemma ElifsStop<E>(c: seq<Node>, i: nat, test: Node -> E, suite: Node -> seq<Stmt<E>>)
    requires !(i < |c| && IsKeyword(c[i], "elif"))
    ensures ElifsFrom(c, i, test, suite) == [] && ElifsEnd(c, i) == i
  {
  }

  /** The else suite after the `elif` groups, or nothing. */
  function ElseSuite<E>(c: seq<Node>, suite: Node -> seq<Stmt<E>>): seq<Stmt<E>> {
    var e := ElifsEnd(c, 4);
    if e + 2 < |c| then suite(c[e + 2]) else []
  }

  /** The source's nesting loop: over the clauses in reverse, each wrapping
      what was built so far. */
  method NestElifs<E>(elifs: seq<(E, seq<Stmt<E>>)>, final: seq<Stmt<E>>) returns (orelse: seq<Stmt<E>>)
    ensures orelse == Chain(elifs, final)
  {
    orelse := final;
    var i := |elifs|;
    while i > 0
      invariant 0 <= i <= |elifs|
      invariant orelse == Chain(elifs[i..], final)
    {
      i := i - 1;
      assert elifs[i..][1..] == elifs[i + 1..];
      orelse := [If(elifs[i].0, elifs[i].1, orelse)];
    }
  }

  /** Every `elif` test before `e` has a location. */
  predicate ElifLocated(c: seq<Node>, e: nat) {
    forall j :: 4 <= j < e && j % 4 == 0 && j + 1 < |c| ==> Location(c[j + 1]).Ok?
  }

  /** A well-formed `if_stmt`: the four children of the `if` clause, full
      `elif` groups whose tests have locations, then nothing or a full
      `'else' ':' suite`. */
  predicate IfStmtShape(c: seq<Node>) {
    var e := ElifsEnd(c, 4);
    && 4 <= |c|
    && ElifLocated(c, e)
    && !(e < |c| && IsKeyword(c[e], "elif"))
    && (e < |c| ==> IsKeyword(c[e], "else") && e + 2 < |c|)
  }

  /** `handle_if_stmt`, given what the handlers make of the tests and the
      suites: `'if' test ':' suite`, then the `elif` groups, then an optional
      `'else' ':' suite`.  A missing child is an IndexError, a child after
      the groups that is not `else` an AssertionError, and an `elif` test
      without a location the error `_get_location` raises. */
  method IfStmt<E>(c: seq<Node>, test: Node -> E, suite: Node -> seq<Stmt<E>>) returns (r: Result<Stmt<E>>)
    ensures |c| < 4 ==> r == Err(IndexErr)
    ensures r.Ok? ==> r.value == If(test(c[1]), suite(c[3]), Chain(ElifsFrom(c, 4, test, suite), ElseSuite(c, suite)))
    ensures (&& 4 <= |c| && ElifsEnd(c, 4) < |c|
             && !IsKeyword(c[ElifsEnd(c, 4)], "elif") && !IsKeyword(c[ElifsEnd(c, 4)], "else")
             && (forall j :: 4 <= j < ElifsEnd(c, 4) && j % 4 == 0 && j + 1 < |c| ==> Location(c[j + 1]).Ok?))
            ==> r == Err(AssertionErr)
    ensures r.Ok? <==> IfStmtShape(c)
    ensures 4 <= |c| && ElifLocated(c, ElifsEnd(c, 4)) && ElifsEnd(c, 4) < |c| && IsKeyword(c[ElifsEnd(c, 4)], "elif")
            ==> r == Err(IndexErr)
    ensures (&& 4 <= |c| && ElifLocated(c, ElifsEnd(c, 4)) && ElifsEnd(c, 4) < |c|
             && IsKeyword(c[ElifsEnd(c, 4)], "else") && ElifsEnd(c, 4) + 2 >= |c|)
            ==> r == Err(IndexErr)
    ensures r.Err? ==> r.error == IndexErr || r.error == AssertionErr
  {
    if |c| < 4 {
      return Err(IndexErr);
    }
    var elifs := [];
    var i := 4;
    while i < |c| && IsKeyword(c[i], "elif")
      invariant 4 <= i && i % 4 == 0
      invariant elifs + ElifsFrom(c, i, test, suite) == ElifsFrom(c, 4, test, suite)
      invariant ElifsEnd(c, i) == ElifsEnd(c, 4)
      invariant ElifLocated(c, i)
    {
      if i + 1 >= |c| {
        assert ElifsEnd(c, 4) == i;
        return Err(IndexErr);
      }
      var loc := Location(c[i + 1]);
      if loc.Err? {
        if i + 3 < |c| {
          ElifStep(c, i, test, suite);
        }
        return Err(loc.error);
      }
      if i + 3 >= |c| {
        assert ElifsEnd(c, 4) == i;
        return Err(IndexErr);
      }
      var clause := (test(c[i + 1]), suite(c[i + 3]));
      ElifStep(c, i, test, suite);
      assert (elifs + [clause]) + ElifsFrom(c, i + 4, test, suite) == elifs + ElifsFrom(c, i, test, suite);
      elifs := elifs + [clause];
      i := i + 4;
    }
    ElifsStop(c, i, test, suite);
    var final := [];
    if i < |c| {
      if !IsKeyword(c[i], "else") {
        return Err(AssertionErr);
      }
      if i + 2 >= |c| {
        return Err(IndexErr);
      }
      final := suite(c[i + 2]);
    }
    assert elifs == ElifsFrom(c, 4, test, suite);
    var orelse := NestElifs(elifs, final);
    return Ok(If(test(c[1]), suite(c[3]), orelse));
  }

  /** The statements reached by following the sole `If` of each `orelse`
      `k` times. */
  function Inner<E>(s: seq<Stmt<E>>, k: nat): Option<seq<Stmt<E>>> {
    if k == 0 then Some(s)
    else if |s| == 1 && s[0].If? then Inner(s[0].orelse, k - 1)
    else None
  }

  /** In the chain, `k` steps down is clause `k` as the only statement, its
      `orelse` the rest of the chain; after the last clause comes the else
      suite. */
  lemma {:induction false} ChainNesting<E>(elifs: seq<(E, seq<Stmt<E>>)>, final: seq<Stmt<E>>, k: nat)
    requires k <= |elifs|
    ensures Inner(Chain(elifs, final), k) == Some(Chain(elifs[k..], final))
    ensures k < |elifs| ==> Chain(elifs[k..], final) == [If(elifs[k].0, elifs[k].1, Chain(elifs[k + 1..], final))]
    ensures k == |elifs| ==> Chain(elifs[k..], final) == final
    decreases k
  {
    if k > 0 {
      ChainNesting(elifs[1..], final, k - 1);
      assert elifs[1..][k - 1..] == elifs[k..];
    }
    if k < |elifs| {
      assert elifs[k..][1..] == elifs[k + 1..];
    }
  }

  // ------------------------------------------------------- operator tables

  datatype Operator = Add | Sub | Mult | Div | Mod | BitAnd | BitOr | BitXor | LShift | RShift | Pow | FloorDiv

  /** The binary operator each `ast` operator stands for. */
  function Spelling(op: Operator): string {
    match op
    case Add => "+"
    case Sub => "-"
    case Mult => "*"
    case Div => "/"
    case Mod => "%"
    case BitAnd => "&"
    case BitOr => "|"
    case BitXor => "^"
    case LShift => "<<"
    case RShift => ">>"
    case Pow => "**"
    case FloorDiv => "//"
  }

  /** `handle_augassign`'s table; any other spelling is a KeyError. */
  function AugOp(text: string): Result<Operator> {
    if text == "+=" then Ok(Add)
    else if text == "-=" then Ok(Sub)
    else if text == "*=" then Ok(Mult)
    else if text == "/=" then Ok(Div)
    else if text == "%=" then Ok(Mod)
    else if text == "&=" then Ok(BitAnd)
    else if text == "|=" then Ok(BitOr)
    else if text == "^=" then Ok(BitXor)
    else if text == "<<=" then Ok(LShift)
    else if text == ">>=" then Ok(RShift)
    else if text == "**=" then Ok(Pow)
    else if text == "//=" then Ok(FloorDiv)
    else Err(KeyErr)
  }

  /** Each operator's augmented spelling maps to it, and only those
      spellings map at all: twelve spellings, twelve distinct operators. */
  lemma AugOpRoundTrip(op: Operator, text: string)
    ensures AugOp(Spelling(op) + "=") == Ok(op)
    ensures AugOp(text).Ok? ==> text == Spelling(AugOp(text).value) + "="
    ensures AugOp(text).Err? ==> AugOp(text) == Err(KeyErr)
  {
    match op
    case Add => assert Spelling(op) + "=" == "+=";
    case Sub => assert Spelling(op) + "=" == "-=";
    case Mult => assert Spelling(op) + "=" == "*=";
    case Div => assert Spelling(op) + "=" == "/=";
    case Mod => assert Spelling(op) + "=" == "%=";
    case BitAnd => assert Spelling(op) + "=" == "&=";
    case BitOr => assert Spelling(op) + "=" == "|=";
    case BitXor => assert Spelling(op) + "=" == "^=";
    case LShift => assert Spelling(op) + "=" == "<<=";
    case RShift => assert Spelling(op) + "=" == ">>=";
    case Pow => assert Spelling(op) + "=" == "**=";
    case FloorDiv => assert Spelling(op) + "=" == "//=";
  }

  /** Two spellings that map to the same operator are the same spelling. */
  lemma AugOpInjective(a: string, b: string)
    requires AugOp(a).Ok? && AugOp(a) == AugOp(b)
    ensures a == b
  {
    AugOpRoundTrip(Add, a);
    AugOpRoundTrip(Add, b);
  }

  datatype CmpOp = Lt | Gt | Eq | GtE | LtE | NotEq | In | Is | IsNot | NotIn

  /** `handle_comp_op`, given the texts of the operator's tokens (only the
      first is read): one token goes through the table, a KeyError
      otherwise; two tokens are `is not` when the first is `is`, else must
      begin with `not` (an AssertionError otherwise) and are `not in`. */
  function CompOp(texts: seq<string>): Result<CmpOp> {
    if texts == [] then Err(IndexErr)
    else
      var t := texts[0];
      if |texts| == 1 then
        if t == "<" then Ok(Lt)
        else if t == ">" then Ok(Gt)
        else if t == "==" then Ok(Eq)
        else if t == ">=" then Ok(GtE)
        else if t == "<=" then Ok(LtE)
        else if t == "<>" || t == "!=" then Ok(NotEq)
        else if t == "in" then Ok(In)
        else if t == "is" then Ok(Is)
        else Err(KeyErr)
      else if t == "is" then Ok(IsNot)
      else if t == "not" then Ok(NotIn)
      else Err(AssertionErr)
  }

  /** The spellings of the one-token comparisons (`!=` for NotEq). */
  function CmpSpelling(op: CmpOp): string {
    match op
    case Lt => "<"
    case Gt => ">"
    case Eq => "=="
    case GtE => ">="
    case LtE => "<="
    case NotEq => "!="
    case In => "in"
    case Is => "is"
    case IsNot => "is not"
    case NotIn => "not in"
  }

  /** `is not` and `not in` are the two-token operators; every one-token
      operator's spelling maps back to it, `<>` is a second spelling of
      NotEq, and nothing else is accepted alone. */
  lemma CompOpTable(op: CmpOp, t: string)
    ensures CompOp(["is", "not"]) == Ok(IsNot) && CompOp(["not", "in"]) == Ok(NotIn)
    ensures op != IsNot && op != NotIn ==> CompOp([CmpSpelling(op)]) == Ok(op)
    ensures CompOp(["<>"]) == Ok(NotEq)
    ensures CompOp([t]).Ok? ==> t == CmpSpelling(CompOp([t]).value) || t == "<>"
    ensures CompOp([t]).Ok? ==> CompOp([t]).value != IsNot && CompOp([t]).value != NotIn
  {
  }

  // ------------------------------------------------------------- arglist

  /** What `handle_node` makes of an argument: a keyword argument or any
      other value. */
  datatype ArgVal<E> = Positional(e: E) | Keyword(name: string, e: E)

  /** A child of `arglist`: a punctuation token, or a handled argument. */
  datatype ArgChild<E> = Punct(text: string) | Arg(value: ArgVal<E>)

  /** The four inputs `handle_arglist` returns for the Call constructor. */
  datatype CallArgs<E> = CallArgs(args: seq<E>, keywords: seq<(string, E)>, starargs: Option<ArgChild<E>>, kwargs: Option<ArgChild<E>>)

  /** The arguments the loops read: every second child from `i` while it is
      not a token. */
  function ArgRun<E>(c: seq<ArgChild<E>>, i: nat): seq<ArgVal<E>>
    decreases |c| - i
  {
    if i < |c| && c[i].Arg? then [c[i].value] + ArgRun(c, i + 2) else []
  }

  /** Where that run stops. */
  function RunEnd<E>(c: seq<ArgChild<E>>, i: nat): (e: nat)
    ensures e >= i
    decreases |c| - i
  {
    if i < |c| && c[i].Arg? then RunEnd(c, i + 2) else i
  }

  function Positionals<E>(vs: seq<ArgVal<E>>): seq<E> {
    if vs == [] then [] else (if vs[0].Positional? then [vs[0].e] else []) + Positionals(vs[1..])
  }

  function Keywords<E>(vs: seq<ArgVal<E>>): seq<(string, E)> {
    if vs == [] then [] else (if vs[0].Keyword? then [(vs[0].name, vs[0].e)] else []) + Keywords(vs[1..])
  }

  /** A positional argument comes after a keyword argument. */
  predicate LatePositional<E>(vs: seq<ArgVal<E>>) {
    exists j, k :: 0 <= j < k < |vs| && vs[j].Keyword? && vs[k].Positional?
  }

  lemma PositionalsSnoc<E>(vs: seq<ArgVal<E>>, v: ArgVal<E>)
    ensures Positionals(vs + [v]) == Positionals(vs) + (if v.Positional? then [v.e] else [])
    ensures Keywords(vs + [v]) == Keywords(vs) + (if v.Keyword? then [(v.name, v.e)] else [])
  {
    if vs != [] {
      assert (vs + [v])[1..] == vs[1..] + [v];
      PositionalsSnoc(vs[1..], v);
    } else {
      assert vs + [v] == [v];
    }
  }

  /** Appending an argument keeps "no positional after a keyword" when it
      is a keyword, or when everything before it is positional. */
  lemma NoLateSnoc<E>(done: seq<ArgVal<E>>, v: ArgVal<E>)
    requires !LatePositional(done)
    requires v.Positional? ==> forall j :: 0 <= j < |done| ==> done[j].Positional?
    ensures !LatePositional(done + [v])
  {
  }

  /** Every argument is positional. */
  ghost predicate AllPositional<E>(vs: seq<ArgVal<E>>) {
    forall j :: 0 <= j < |vs| ==> vs[j].Positional?
  }

  lemma AllPositionalNoLate<E>(vs: seq<ArgVal<E>>)
    requires AllPositional(vs)
    ensures !LatePositional(vs)
  {
  }

  lemma AllPositionalSnoc<E>(vs: seq<ArgVal<E>>, v: ArgVal<E>)
    requires AllPositional(vs) && v.Positional?
    ensures AllPositional(vs + [v])
  {
    forall j | 0 <= j < |vs| + 1
      ensures (vs + [v])[j].Positional?
    {
      if j < |vs| { assert (vs + [v])[j] == vs[j]; }
    }
  }

  /** One argument of the run taken. */
  lemma ArgStep<E>(c: seq<ArgChild<E>>, i: nat, done: seq<ArgVal<E>>)
    requires i < |c| && c[i].Arg? && done + ArgRun(c, i) == ArgRun(c, 0) && RunEnd(c, i) == RunEnd(c, 0)
    ensures (done + [c[i].value]) + ArgRun(c, i + 2) == ArgRun(c, 0) && RunEnd(c, i + 2) == RunEnd(c, 0)
    ensures ArgRun(c, i) == [c[i].value] + ArgRun(c, i + 2)
  {
    assert ArgRun(c, i) == [c[i].value] + ArgRun(c, i + 2);
  }

  /** A positional right after a keyword is a late positional of the whole
      run. */
  lemma LateFound<E>(done: seq<ArgVal<E>>, v: ArgVal<E>, rest: seq<ArgVal<E>>, run: seq<ArgVal<E>>)
    requires |done| > 0 && done[|done| - 1].Keyword? && v.Positional? && done + ([v] + rest) == run
    ensures LatePositional(run)
  {
    assert run[|done| - 1] == done[|done| - 1] && run[|done|] == v;
  }

  /** The two loops of `handle_arglist`: the arguments, or `bad` at the
      first positional after a keyword. */
  method CollectArgs<E>(c: seq<ArgChild<E>>) returns (args: seq<E>, kws: seq<(string, E)>, i: nat, bad: bool)
    ensures bad <==> LatePositional(ArgRun(c, 0))
    ensures !bad ==> args == Positionals(ArgRun(c, 0)) && kws == Keywords(ArgRun(c, 0)) && i == RunEnd(c, 0)
  {
    var done, sawKw;
    args, kws, done, i, sawKw := TakePositionals(c);
    kws, i, bad := TakeKeywords(c, args, kws, done, i, sawKw);
  }

  /** The first loop: positionals, up to and including the first keyword
      argument. */
  method TakePositionals<E>(c: seq<ArgChild<E>>)
      returns (args: seq<E>, kws: seq<(string, E)>, done: seq<ArgVal<E>>, i: nat, sawKw: bool)
    ensures done + ArgRun(c, i) == ArgRun(c, 0) && RunEnd(c, i) == RunEnd(c, 0)
    ensures args == Positionals(done) && kws == Keywords(done)
    ensures !LatePositional(done)
    ensures sawKw ==> |done| > 0 && done[|done| - 1].Keyword?
    ensures AllPositional(if sawKw then done[..|done| - 1] else done)
    ensures !sawKw ==> ArgRun(c, i) == []
  {
    args := [];
    kws := [];
    done := [];
    sawKw := false;
    i := 0;
    while i < |c| && c[i].Arg?
      invariant done + ArgRun(c, i) == ArgRun(c, 0) && RunEnd(c, i) == RunEnd(c, 0)
      invariant args == Positionals(done) && kws == Keywords(done)
      invariant AllPositional(done)
      decreases |c| - i
    {
      var v := c[i].value;
      ArgStep(c, i, done);
      PositionalsSnoc(done, v);
      if v.Keyword? {
        assert !LatePositional(done + [v]) by {
          AllPositionalNoLate(done);
          NoLateSnoc(done, v);
        }
        kws := kws + [(v.name, v.e)];
        assert (done + [v])[..|done|] == done;
        done := done + [v];
        i := i + 2;
        sawKw := true;
        return;
      }
      AllPositionalSnoc(done, v);
      args := args + [v.e];
      done := done + [v];
      i := i + 2;
    }
    AllPositionalNoLate(done);
  }

  /** The second loop: keyword arguments, stopping at a positional. */
  method TakeKeywords<E>(c: seq<ArgChild<E>>, args: seq<E>, kws0: seq<(string, E)>, done0: seq<ArgVal<E>>, i0: nat, sawKw: bool)
      returns (kws: seq<(string, E)>, i: nat, bad: bool)
    requires done0 + ArgRun(c, i0) == ArgRun(c, 0) && RunEnd(c, i0) == RunEnd(c, 0)
    requires args == Positionals(done0) && kws0 == Keywords(done0)
    requires !LatePositional(done0)
    requires sawKw ==> |done0| > 0 && done0[|done0| - 1].Keyword?
    requires !sawKw ==> ArgRun(c, i0) == []
    ensures bad <==> LatePositional(ArgRun(c, 0))
    ensures !bad ==> args == Positionals(ArgRun(c, 0)) && kws == Keywords(ArgRun(c, 0)) && i == RunEnd(c, 0)
  {
    kws := kws0;
    i := i0;
    bad := false;
    var done := done0;
    while i < |c| && c[i].Arg?
      invariant done + ArgRun(c, i) == ArgRun(c, 0) && RunEnd(c, i) == RunEnd(c, 0)
      invariant args == Positionals(done) && kws == Keywords(done)
      invariant !LatePositional(done)
      invariant sawKw ==> |done| > 0 && done[|done| - 1].Keyword?
      invariant !sawKw ==> ArgRun(c, i) == []
      decreases |c| - i
    {
      var v := c[i].value;
      ArgStep(c, i, done);
      if !v.Keyword? {
        LateFound(done, v, ArgRun(c, i + 2), ArgRun(c, 0));
        bad := true;
        return;
      }
      PositionalsSnoc(done, v);
      NoLateSnoc(done, v);
      kws := kws + [(v.name, v.e)];
      done := done + [v];
      i := i + 2;
    }
    assert ArgRun(c, i) == [] && RunEnd(c, i) == i;
    assert done == ArgRun(c, 0);
  }

  /** Where the `**` group may start: past the `*` group when there is
      one, else at `e`. */
  function AfterStar<E>(c: seq<ArgChild<E>>, e: nat): nat {
    if e + 1 < |c| && c[e] == Punct("*") then e + 3 else e
  }

  /** A `*` or `**` token in last position: the source's
      `children[child_index + 1]` is out of range. */
  predicate DanglingStar<E>(c: seq<ArgChild<E>>, e: nat) {
    (e + 1 == |c| && c[e] == Punct("*"))
    || (AfterStar(c, e) + 1 == |c| && c[AfterStar(c, e)] == Punct("**"))
  }

  /** `handle_arglist`: positionals are collected until the first keyword,
      keywords after it, and a positional after a keyword is the SyntaxError
      "non-keyword arg after keyword arg"; then an optional `*` and `**`
      argument, each the child after its token. */
  method Arglist<E>(c: seq<ArgChild<E>>) returns (r: Result<CallArgs<E>>)
    ensures LatePositional(ArgRun(c, 0)) <==> r.Err? && r.error.SyntaxErr?
    ensures r.Err? && r.error.SyntaxErr? ==> r.error == SyntaxErr("non-keyword arg after keyword arg")
    ensures r.Err? ==> r.error.SyntaxErr? || r.error == IndexErr
    ensures r.Ok? ==> r.value.args == Positionals(ArgRun(c, 0)) && r.value.keywords == Keywords(ArgRun(c, 0))
    ensures r.Ok? ==> var e := RunEnd(c, 0);
                      r.value.starargs == (if e + 1 < |c| && c[e] == Punct("*") then Some(c[e + 1]) else None)
    ensures r.Ok? ==> var s := AfterStar(c, RunEnd(c, 0));
                      r.value.kwargs == (if s + 1 < |c| && c[s] == Punct("**") then Some(c[s + 1]) else None)
    ensures r == Err(IndexErr) <==> !LatePositional(ArgRun(c, 0)) && DanglingStar(c, RunEnd(c, 0))
  {
    var args, kws, i, bad := CollectArgs(c);
    if bad {
      return Err(SyntaxErr("non-keyword arg after keyword arg"));
    }
    var star: Option<ArgChild<E>> := None;
    var dstar: Option<ArgChild<E>> := None;
    if i < |c| && c[i] == Punct("*") {
      if i + 1 >= |c| {
        return Err(IndexErr);
      }
      star := Some(c[i + 1]);
      i := i + 3;
    }
    if i < |c| && c[i] == Punct("**") {
      if i + 1 >= |c| {
        return Err(IndexErr);
      }
      dstar := Some(c[i + 1]);
      i := i + 3;
    }
    return Ok(CallArgs(args, kws, star, dstar));
  }
}
