/** Concrete syntax trees.  A node is `(label, [children])`; the label is a
    token tuple for a leaf, or a nonterminal name or number otherwise.  The
    flat tuples of the `parser` module (`(sym, child, child, ...)` and
    `(tok, text)`) are `PyTuple`s. */
module Trees {
  import opened Tokens

  datatype PyTuple =
    | PyLeaf(num: int, text: string)
    | PyBranch(num: int, kids: seq<PyTuple>)

  datatype Label =
    | Tok(token: Token)
    | Sym(name: string)
    | Num(n: int)
      /** A whole flat tuple kept as the label of a leaf. */
    | Raw(tuple: PyTuple)
  {
    /** `isinstance(label, tuple)` / `type(label) == tuple`. */
    predicate IsTuple() {
      Tok? || Raw?
    }
  }

  datatype Node = Node(data: Label, children: seq<Node>)

  /** `astify.MyHandler.is_token`. */
  predicate IsToken(n: Node) {
    n.data.IsTuple()
  }

  /** The labels of the token leaves, left to right (the reference traversal). */
  function Leaves(n: Node): (r: seq<Label>)
    ensures IsToken(n) ==> r == [n.data]
    decreases n, 0
  {
    if IsToken(n) then [n.data] else LeavesOf(n.children)
  }

  function LeavesOf(ns: seq<Node>): seq<Label>
    decreases ns, 1
  {
    if ns == [] then [] else Leaves(ns[0]) + LeavesOf(ns[1..])
  }

  lemma LeavesOfAppend(a: seq<Node>, b: seq<Node>)
    ensures LeavesOf(a + b) == LeavesOf(a) + LeavesOf(b)
  {
    if a == [] {
      assert a + b == b;
    } else {
      assert (a + b)[1..] == a[1..] + b;
      LeavesOfAppend(a[1..], b);
    }
  }

  lemma LeavesAreTuples(n: Node)
    ensures forall l :: l in Leaves(n) ==> l.IsTuple()
    decreases n, 0
  {
    if !IsToken(n) {
      LeavesOfAreTuples(n.children);
    }
  }

  lemma LeavesOfAreTuples(ns: seq<Node>)
    ensures forall l :: l in LeavesOf(ns) ==> l.IsTuple()
    decreases ns, 1
  {
    if ns != [] {
      LeavesAreTuples(ns[0]);
      LeavesOfAreTuples(ns[1..]);
    }
  }
}
