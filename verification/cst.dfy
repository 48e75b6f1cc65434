/** `mython.cst`: visitor dispatch over concrete syntax trees, the
    child-replacing transformer, and the conversion from the `parser`
    module's flat tuples to `(label, [children])` nodes.  A visitor's own
    `visit_<name>` methods are outside this model: a visitor is the set of
    method names it defines, and what a transformer's own methods return is a
    parameter. */
module Cst {
  import opened Errors
  import opened Text
  import opened Tokens
  import opened Trees

  // --------------------------------------------------------------- dispatch

  /** A visitor: its `symbol_names` table and the `visit_*` methods it has. */
  datatype Visitor = Visitor(names: map<Label, string>, methods: set<string>)

  /** Where `visit` sends a node: one of the visitor's methods, or
      `generic_visit`. */
  datatype Target = Method(name: string) | Generic

  /** `str(data)` for a nonterminal label. */
  function LabelText(l: Label): string {
    match l
    case Sym(s) => s
    case Num(n) => IntToDec(n)
    case Tok(_) => ""
    case Raw(_) => ""
  }

  /** The method name `visit` looks for. */
  function MethodFor(v: Visitor, l: Label): string {
    if l.IsTuple() then "visit_token"
    else if l in v.names then "visit_" + v.names[l]
    else "visit_" + LabelText(l)
  }

  /** `ConcreteNodeVisitor.visit`: a tuple label goes to `visit_token`, any
      other to `visit_` and its name in `symbol_names` (its `str` when it has
      none); a missing method falls back to `generic_visit`. */
  function Dispatch(v: Visitor, l: Label): (t: Target)
    ensures l.IsTuple() ==> (t.Method? <==> "visit_token" in v.methods) && (t.Method? ==> t.name == "visit_token")
    ensures !l.IsTuple() && l in v.names ==>
              (t.Method? <==> "visit_" + v.names[l] in v.methods) && (t.Method? ==> t.name == "visit_" + v.names[l])
    ensures !l.IsTuple() && l !in v.names && l.Sym? ==>
              (t.Method? <==> "visit_" + l.name in v.methods) && (t.Method? ==> t.name == "visit_" + l.name)
    ensures t.Method? ==> t.name in v.methods
  {
    var m := MethodFor(v, l);
    if m in v.methods then Method(m) else Generic
  }

  // ----------------------------------------------------------- traversal

  /** One call of a visitor method on a node. */
  datatype Call = Call(name: string, node: Node)

  /** The visitor methods a `visit` of `n` calls, in order: a node with a
      method of its own stops there; any other is walked by `generic_visit`. */
  function Visit(v: Visitor, n: Node): seq<Call>
    decreases n, 0
  {
    match Dispatch(v, n.data)
    case Method(m) => [Call(m, n)]
    case Generic => VisitAll(v, n.children)
  }

  /** `generic_visit`'s loop: every child, in order. */
  function VisitAll(v: Visitor, ns: seq<Node>): seq<Call>
    decreases ns, 1
  {
    if ns == [] then [] else Visit(v, ns[0]) + VisitAll(v, ns[1..])
  }

  /** `x` is `n` or lies below it. */
  predicate Within(x: Node, n: Node)
    decreases n
  {
    x == n || exists i :: 0 <= i < |n.children| && Within(x, n.children[i])
  }

  /** The children are visited one after another: the calls for a run of
      siblings are those for its first part followed by those for the rest. */
  lemma {:induction false} VisitAllAppend(v: Visitor, a: seq<Node>, b: seq<Node>)
    ensures VisitAll(v, a + b) == VisitAll(v, a) + VisitAll(v, b)
    decreases |a|
  {
    if a == [] {
      assert a + b == b;
    } else {
      assert (a + b)[0] == a[0];
      assert (a + b)[1..] == a[1..] + b;
      VisitAllAppend(v, a[1..], b);
    }
  }

  /** `generic_visit` visits each child exactly once, in order: its calls
      are the children's calls laid end to end. */
  lemma {:induction false} GenericVisitsEachChild(v: Visitor, n: Node, i: nat)
    requires Dispatch(v, n.data).Generic? && i <= |n.children|
    ensures Visit(v, n) == VisitAll(v, n.children[..i]) + VisitAll(v, n.children[i..])
  {
    assert n.children == n.children[..i] + n.children[i..];
    VisitAllAppend(v, n.children[..i], n.children[i..]);
  }

  /** Every call is of a method the visitor has, on a node of the tree that
      dispatches to that method. */
  lemma {:induction false} VisitSound(v: Visitor, n: Node)
    ensures forall c :: c in Visit(v, n) ==>
              Within(c.node, n) && Dispatch(v, c.node.data) == Method(c.name) && c.name in v.methods
    decreases n, 1
  {
    match Dispatch(v, n.data)
    case Method(m) =>
    case Generic => VisitAllSound(v, n);
  }

  lemma {:induction false} VisitAllSound(v: Visitor, n: Node)
    requires Dispatch(v, n.data).Generic?
    ensures forall c :: c in VisitAll(v, n.children) ==>
              Within(c.node, n) && Dispatch(v, c.node.data) == Method(c.name) && c.name in v.methods
    decreases n, 0
  {
    forall c | c in VisitAll(v, n.children)
      ensures Within(c.node, n) && Dispatch(v, c.node.data) == Method(c.name) && c.name in v.methods
    {
      var i := CallFrom(v, n.children, c);
      VisitSound(v, n.children[i]);
    }
  }

  /** The child whose visit made a given call. */
  lemma {:induction false} CallFrom(v: Visitor, ns: seq<Node>, c: Call) returns (i: nat)
    requires c in VisitAll(v, ns)
    ensures i < |ns| && c in Visit(v, ns[i])
    decreases |ns|
  {
    if c in Visit(v, ns[0]) {
      i := 0;
    } else {
      var j := CallFrom(v, ns[1..], c);
      i := j + 1;
    }
  }

  /** A visitor with the one method `m` calls it whenever the tree holds a
      node that dispatches to it. */
  lemma {:induction false} VisitReaches(v: Visitor, n: Node, x: Node, m: string)
    requires v.methods == {m} && Within(x, n) && Dispatch(v, x.data) == Method(m)
    ensures exists y :: Call(m, y) in Visit(v, n)
    decreases n
  {
    match Dispatch(v, n.data)
    case Method(m') =>
      assert Visit(v, n) == [Call(m', n)];
      assert Call(m, n) in Visit(v, n);
    case Generic =>
      assert x != n;
      var i :| 0 <= i < |n.children| && Within(x, n.children[i]);
      VisitReaches(v, n.children[i], x, m);
      var y :| Call(m, y) in Visit(v, n.children[i]);
      GenericVisitsEachChild(v, n, i);
      assert n.children[i..] == [n.children[i]] + n.children[i + 1..];
      assert VisitAll(v, n.children[i..]) == Visit(v, n.children[i]) + VisitAll(v, n.children[i + 1..]);
      assert Call(m, y) in Visit(v, n);
  }

  // ---------------------------------------------------------- transformer

  /** A transformer: its dispatch table, and what each of its own methods
      returns for a node (`None` drops it). */
  datatype Transformer = Transformer(v: Visitor, user: (string, Node) -> Option<Node>)

  /** `ConcreteNodeTransformer.visit`: a node with a method of its own is
      whatever that method returns; any other keeps its label and has its
      children replaced by their transforms, `None`s dropped. */
  function Transform(t: Transformer, n: Node): (r: Option<Node>)
    ensures Dispatch(t.v, n.data).Generic? ==>
              r.Some? && r.value.data == n.data && |r.value.children| <= |n.children|
    ensures Dispatch(t.v, n.data).Method? ==> r == t.user(Dispatch(t.v, n.data).name, n)
    decreases n, 0
  {
    match Dispatch(t.v, n.data)
    case Method(m) => t.user(m, n)
    case Generic => Some(Node(n.data, TransformAll(t, n.children)))
  }

  /** The new children: the transforms of the old ones, in order, without
      the `None`s. */
  function TransformAll(t: Transformer, ns: seq<Node>): (r: seq<Node>)
    ensures |r| <= |ns|
    decreases ns, 1
  {
    if ns == [] then []
    else
      var head := Transform(t, ns[0]);
      (if head.Some? then [head.value] else []) + TransformAll(t, ns[1..])
  }

  /** How many of the children transform to something. */
  function Kept(t: Transformer, ns: seq<Node>): nat
    decreases |ns|
  {
    if ns == [] then 0 else (if Transform(t, ns[0]).Some? then 1 else 0) + Kept(t, ns[1..])
  }

  /** The transform of each child, `None` or not. */
  function Results(t: Transformer, ns: seq<Node>): (os: seq<Option<Node>>)
    ensures |os| == |ns|
    ensures forall i :: 0 <= i < |ns| ==> os[i] == Transform(t, ns[i])
  {
    if ns == [] then [] else [Transform(t, ns[0])] + Results(t, ns[1..])
  }

  /** `r` is the values of the `Some`s of `os` in order, `idx` saying where
      each came from; no `Some` is skipped. */
  ghost predicate Picks<T>(os: seq<Option<T>>, r: seq<T>, idx: seq<nat>) {
    |idx| == |r| && Sources(os, r, idx) && Increasing(idx) && Covers(os, idx)
  }

  /** Each picked value is the `Some` at its index. */
  ghost predicate Sources<T>(os: seq<Option<T>>, r: seq<T>, idx: seq<nat>) {
    forall k :: 0 <= k < |idx| ==> k < |r| && idx[k] < |os| && os[idx[k]] == Some(r[k])
  }

  ghost predicate Increasing(idx: seq<nat>) {
    forall k, l :: 0 <= k < l < |idx| ==> idx[k] < idx[l]
  }

  /** Every `Some` is picked. */
  ghost predicate Covers<T>(os: seq<Option<T>>, idx: seq<nat>) {
    forall i :: 0 <= i < |os| && os[i].Some? ==> i in idx
  }

  function Shift(idx: seq<nat>): (r: seq<nat>)
    ensures |r| == |idx|
    ensures forall k :: 0 <= k < |idx| ==> r[k] == idx[k] + 1
  {
    if idx == [] then [] else [idx[0] + 1] + Shift(idx[1..])
  }

  lemma ShiftIncreasing(idx: seq<nat>)
    requires Increasing(idx)
    ensures Increasing(Shift(idx)) && Increasing([0] + Shift(idx))
  {
    var ix := [0] + Shift(idx);
    forall k, l | 0 <= k < l < |ix|
      ensures ix[k] < ix[l]
    {
      if k > 0 {
        assert ix[k] == idx[k - 1] + 1 && ix[l] == idx[l - 1] + 1;
      }
    }
  }

  lemma SourcesShift<T>(os: seq<Option<T>>, rest: seq<T>, idx: seq<nat>)
    requires os != [] && Sources(os[1..], rest, idx)
    ensures Sources(os, rest, Shift(idx))
  {
    var sh := Shift(idx);
    forall k | 0 <= k < |sh|
      ensures k < |rest| && sh[k] < |os| && os[sh[k]] == Some(rest[k])
    {
      var i := idx[k];
      assert k < |rest| && i < |os| - 1 && os[1..][i] == Some(rest[k]);
      assert os[1..][i] == os[i + 1];
      assert sh[k] == i + 1;
    }
    assert Sources(os, rest, sh);
  }

  lemma SourcesCons<T>(os: seq<Option<T>>, rest: seq<T>, sh: seq<nat>)
    requires os != [] && os[0].Some? && Sources(os, rest, sh)
    ensures Sources(os, [os[0].value] + rest, [0] + sh)
  {
    var r := [os[0].value] + rest;
    var ix: seq<nat> := [0] + sh;
    assert |ix| == |sh| + 1 && |r| == |rest| + 1;
    assert ix[0] == 0 && r[0] == os[0].value && os[0] == Some(r[0]);
    assert forall k :: 1 <= k < |ix| ==> ix[k] == sh[k - 1] && r[k] == rest[k - 1];
  }

  lemma CoversShift<T>(os: seq<Option<T>>, idx: seq<nat>)
    requires os != [] && Covers(os[1..], idx)
    ensures os[0].None? ==> Covers(os, Shift(idx))
    ensures Covers(os, [0] + Shift(idx))
  {
    var sh := Shift(idx);
    forall i | 0 < i < |os| && os[i].Some?
      ensures i in sh
    {
      assert os[1..][i - 1] == os[i];
      var k :| 0 <= k < |idx| && idx[k] == i - 1;
      assert sh[k] == i;
    }
    var ix: seq<nat> := [0] + sh;
    forall i | 0 <= i < |os| && os[i].Some?
      ensures i in ix
    {
      if i > 0 {
        assert i in sh;
        var k :| 0 <= k < |sh| && sh[k] == i;
        assert ix[k + 1] == i;
      }
    }
  }

  /** A leading `None` is skipped. */
  lemma PicksSkip<T>(os: seq<Option<T>>, rest: seq<T>, idx: seq<nat>)
    requires os != [] && os[0].None? && Picks(os[1..], rest, idx)
    ensures Picks(os, rest, Shift(idx))
  {
    ShiftIncreasing(idx);
    SourcesShift(os, rest, idx);
    CoversShift(os, idx);
  }

  /** A leading `Some` comes first. */
  lemma PicksTake<T>(os: seq<Option<T>>, rest: seq<T>, idx: seq<nat>)
    requires os != [] && os[0].Some? && Picks(os[1..], rest, idx)
    ensures Picks(os, [os[0].value] + rest, [0] + Shift(idx))
  {
    ShiftIncreasing(idx);
    SourcesShift(os, rest, idx);
    SourcesCons(os, rest, Shift(idx));
    CoversShift(os, idx);
  }

  /** The new children are exactly the non-`None` results, in the children's
      order: there is an increasing choice of children whose transforms they
      are, and it skips exactly the children that transform to `None`. */
  lemma {:induction false} TransformAllKeepsOrder(t: Transformer, ns: seq<Node>) returns (idx: seq<nat>)
    ensures |TransformAll(t, ns)| == Kept(t, ns)
    ensures Picks(Results(t, ns), TransformAll(t, ns), idx)
    decreases |ns|
  {
    if ns == [] {
      idx := [];
    } else {
      var rest := TransformAllKeepsOrder(t, ns[1..]);
      var os := Results(t, ns);
      assert os[1..] == Results(t, ns[1..]);
      if os[0].Some? {
        PicksTake(os, TransformAll(t, ns[1..]), rest);
        idx := [0] + Shift(rest);
      } else {
        PicksSkip(os, TransformAll(t, ns[1..]), rest);
        idx := Shift(rest);
      }
    }
  }

  /** A transformer without methods of its own gives back the tree it is
      given. */
  lemma {:induction false} NoMethodsIdentity(t: Transformer, n: Node)
    requires t.v.methods == {}
    ensures Transform(t, n) == Some(n)
    decreases n, 0
  {
    assert Dispatch(t.v, n.data) == Generic;
    NoMethodsIdentityAll(t, n.children);
  }

  lemma {:induction false} NoMethodsIdentityAll(t: Transformer, ns: seq<Node>)
    requires t.v.methods == {}
    ensures TransformAll(t, ns) == ns
    decreases ns, 1
  {
    if ns != [] {
      NoMethodsIdentity(t, ns[0]);
      NoMethodsIdentityAll(t, ns[1..]);
      assert ns == [ns[0]] + ns[1..];
    }
  }

  // ------------------------------------------------ flat tuple conversion

  /** Every leaf of the flat tuple is numbered below NT_OFFSET, as the
      `parser` module's token numbers are. */
  predicate WellNumbered(p: PyTuple)
    decreases p
  {
    match p
    case PyLeaf(num, _) => num < NT_OFFSET
    case PyBranch(_, kids) => forall i :: 0 <= i < |kids| ==> WellNumbered(kids[i])
  }

  /** A flat tuple as `parser.st2tuple` builds it: terminals below
      NT_OFFSET, nonterminals from NT_OFFSET up. */
  predicate ParserTuple(p: PyTuple)
    decreases p
  {
    match p
    case PyLeaf(num, _) => num < NT_OFFSET
    case PyBranch(num, kids) => num >= NT_OFFSET && forall i :: 0 <= i < |kids| ==> ParserTuple(kids[i])
  }

  lemma {:induction false} ParserTupleWellNumbered(p: PyTuple)
    requires ParserTuple(p)
    ensures WellNumbered(p)
    decreases p
  {
    if p.PyBranch? {
      forall i | 0 <= i < |p.kids|
        ensures WellNumbered(p.kids[i])
      {
        ParserTupleWellNumbered(p.kids[i]);
      }
    }
  }

  /** `PyConcreteToMyConcreteTransformer.visit` (its table is empty and it
      has no methods of its own, so every node goes to its
      `generic_visit`): below NT_OFFSET the whole tuple becomes a leaf label;
      above, the number labels a node whose children are the converted
      elements after it. */
  function Convert(p: PyTuple): (r: Node)
    requires WellNumbered(p)
    ensures p.num < NT_OFFSET ==> r == Node(Raw(p), [])
    ensures p.num >= NT_OFFSET ==> p.PyBranch? && r.data == Num(p.num) && |r.children| == |p.kids|
    decreases p, 0
  {
    if p.num < NT_OFFSET then Node(Raw(p), [])
    else Node(Num(p.num), ConvertAll(p.kids))
  }

  function ConvertAll(ps: seq<PyTuple>): (r: seq<Node>)
    requires forall i :: 0 <= i < |ps| ==> WellNumbered(ps[i])
    ensures |r| == |ps|
    ensures forall i :: 0 <= i < |ps| ==> r[i] == Convert(ps[i])
    decreases ps, 1
  {
    if ps == [] then [] else [Convert(ps[0])] + ConvertAll(ps[1..])
  }

  /** The tuples below NT_OFFSET, left to right: the reference for what
      becomes a leaf. */
  function PyTerminals(p: PyTuple): seq<PyTuple>
    decreases p, 0
  {
    if p.num < NT_OFFSET then [p]
    else match p
      case PyLeaf(_, _) => [p]
      case PyBranch(_, kids) => PyTerminalsOf(kids)
  }

  function PyTerminalsOf(ps: seq<PyTuple>): seq<PyTuple>
    decreases ps, 1
  {
    if ps == [] then [] else PyTerminals(ps[0]) + PyTerminalsOf(ps[1..])
  }

  function Raws(ps: seq<PyTuple>): (r: seq<Label>)
    ensures |r| == |ps|
    ensures forall i :: 0 <= i < |ps| ==> r[i] == Raw(ps[i])
  {
    if ps == [] then [] else [Raw(ps[0])] + Raws(ps[1..])
  }

  lemma RawsAppend(a: seq<PyTuple>, b: seq<PyTuple>)
    ensures Raws(a + b) == Raws(a) + Raws(b)
  {
  }

  /** The converted tree's leaves are the original terminals, in order. */
  lemma {:induction false} ConvertLeaves(p: PyTuple)
    requires WellNumbered(p)
    ensures Leaves(Convert(p)) == Raws(PyTerminals(p))
    decreases p, 0
  {
    if p.num >= NT_OFFSET {
      ConvertLeavesAll(p.kids);
    }
  }

  lemma {:induction false} ConvertLeavesAll(ps: seq<PyTuple>)
    requires forall i :: 0 <= i < |ps| ==> WellNumbered(ps[i])
    ensures LeavesOf(ConvertAll(ps)) == Raws(PyTerminalsOf(ps))
    decreases ps, 1
  {
    if ps != [] {
      var cs := ConvertAll(ps);
      assert cs[1..] == ConvertAll(ps[1..]);
      ConvertLeaves(ps[0]);
      ConvertLeavesAll(ps[1..]);
      RawsAppend(PyTerminals(ps[0]), PyTerminalsOf(ps[1..]));
    }
  }

  /** The flat tuple holds a nonterminal numbered `k`. */
  predicate HasSymbol(p: PyTuple, k: int)
    decreases p
  {
    p.PyBranch? && (p.num == k || exists i :: 0 <= i < |p.kids| && HasSymbol(p.kids[i], k))
  }

  /** Nonterminal `k` of the flat tuple is a node labelled `k` of the
      converted tree. */
  lemma {:induction false} ConvertKeepsSymbol(p: PyTuple, k: int)
    requires ParserTuple(p) && HasSymbol(p, k)
    ensures WellNumbered(p) && exists x :: Within(x, Convert(p)) && x.data == Num(k)
    decreases p
  {
    ParserTupleWellNumbered(p);
    if p.num == k {
      assert Within(Convert(p), Convert(p));
    } else {
      var i :| 0 <= i < |p.kids| && HasSymbol(p.kids[i], k);
      ConvertKeepsSymbol(p.kids[i], k);
      var x :| Within(x, Convert(p.kids[i])) && x.data == Num(k);
      assert Convert(p).children[i] == Convert(p.kids[i]);
      assert Within(x, Convert(p));
    }
  }

  /** A `parser.suite` tuple holding a `pass_stmt` (number `k`), once
      converted, reaches `visit_pass_stmt` of a visitor built on
      `symbol.sym_name`. */
  lemma PassStmtReached(p: PyTuple, k: int, names: map<Label, string>)
    requires ParserTuple(p) && HasSymbol(p, k)
    requires Num(k) in names && names[Num(k)] == "pass_stmt"
    ensures WellNumbered(p)
    ensures exists y :: Call("visit_pass_stmt", y) in Visit(Visitor(names, {"visit_pass_stmt"}), Convert(p))
  {
    var v := Visitor(names, {"visit_pass_stmt"});
    ConvertKeepsSymbol(p, k);
    var x :| Within(x, Convert(p)) && x.data == Num(k);
    assert MethodFor(v, x.data) == "visit_" + "pass_stmt" == "visit_pass_stmt";
    VisitReaches(v, Convert(p), x, "visit_pass_stmt");
  }
}
