/** `trampoline.TreeBuilder`: a stack of open CST nodes rooted at
    `('start', [])`.  The source appends a node to its parent when it is
    pushed and keeps filling it through a shared reference; here the open
    nodes are frames, and `Tree` closes them to give the tree the source's
    `self.tree` shows at any moment. */
module TreeBuilder {
  import opened Trees

  datatype Frame = Frame(data: Label, children: seq<Node>)

  datatype Stack = Stack(frames: seq<Frame>)

  /** The builder's shape: the root frame stays at the bottom. */
  predicate Valid(s: Stack) {
    |s.frames| >= 1 && s.frames[0].data == Sym("start")
  }

  type Builder = s: Stack | Valid(s) witness Stack([Frame(Sym("start"), [])])

  const Root: Label := Sym("start")

  function Init(): (b: Builder)
    ensures Depth(b) == 1 && b.frames[0].data == Root
  {
    Stack([Frame(Root, [])])
  }

  function Depth(b: Stack): nat {
    |b.frames|
  }

  function Close(f: Frame): Node {
    Node(f.data, f.children)
  }

  function AddChild(f: Frame, n: Node): (g: Frame)
    ensures g.data == f.data && g.children == f.children + [n]
  {
    Frame(f.data, f.children + [n])
  }

  /** `push(elem)`: a new empty node, last child of the top, becomes the top. */
  function Push(b: Builder, data: Label): (r: Builder)
    ensures Depth(r) == Depth(b) + 1
    ensures r.frames[..Depth(b)] == b.frames && r.frames[Depth(b)] == Frame(data, [])
  {
    Stack(b.frames + [Frame(data, [])])
  }

  /** `pushpop(elem)`: a childless node appended to the top; depth unchanged. */
  function PushPop(b: Builder, data: Label): (r: Builder)
    ensures Depth(r) == Depth(b)
    ensures r.frames[..Depth(b) - 1] == b.frames[..Depth(b) - 1]
    ensures r.frames[Depth(b) - 1].data == b.frames[Depth(b) - 1].data
    ensures r.frames[Depth(b) - 1].children == b.frames[Depth(b) - 1].children + [Node(data, [])]
  {
    var n := |b.frames|;
    Stack(b.frames[..n - 1] + [AddChild(b.frames[n - 1], Node(data, []))])
  }

  /** `pop()`: the top node is complete; it stays where it was attached.
      Popping the root itself never happens in a parse (every handler pops
      only what it pushed) and leaves the builder unchanged here. */
  function Pop(b: Builder): (r: Builder)
    ensures Depth(b) >= 2 ==> Depth(r) == Depth(b) - 1 && r.frames[..Depth(b) - 2] == b.frames[..Depth(b) - 2]
  {
    var n := |b.frames|;
    if n < 2 then b
    else Stack(b.frames[..n - 2] + [AddChild(b.frames[n - 2], Close(b.frames[n - 1]))])
  }

  /** The tree as the source's `self.tree` shows it: every open node attached
      as the last child of the node below it. */
  function Tree(b: Builder): Node
    decreases |b.frames|
  {
    if |b.frames| == 1 then Close(b.frames[0]) else Tree(Pop(b))
  }

  // ---------------------------------------------------------------- properties

  /** Right after `push`, the visible tree shows the new node as an empty last
      child of the old top: the same tree `pushpop` gives. */
  lemma {:induction false} PushShowsEmptyChild(b: Builder, data: Label)
    ensures Tree(Push(b, data)) == Tree(PushPop(b, data))
  {
    var p := Push(b, data);
    assert Pop(p) == PushPop(b, data) by {
      assert p.frames[..|p.frames| - 2] == b.frames[..|b.frames| - 1];
    }
  }

  /** `pop` never changes the visible tree: a popped node stays attached. */
  lemma PopKeepsTree(b: Builder)
    requires Depth(b) >= 2
    ensures Tree(Pop(b)) == Tree(b)
  {
  }

  /** A `push` followed by its `pop` leaves the builder as a `pushpop` would. */
  lemma PushThenPop(b: Builder, data: Label)
    ensures Pop(Push(b, data)) == PushPop(b, data)
  {
    var p := Push(b, data);
    assert p.frames[..|p.frames| - 2] == b.frames[..|b.frames| - 1];
  }

  /** A run of `pushpop`s. */
  function PushPopAll(b: Builder, ds: seq<Label>): Builder
    decreases |ds|
  {
    if ds == [] then b else PushPopAll(PushPop(b, ds[0]), ds[1..])
  }

  /** A run of `pushpop`s appends its leaves to the top in order and changes
      nothing else. */
  lemma {:induction false} PushPopAllSpec(b: Builder, ds: seq<Label>)
    ensures var n := Depth(b);
            var top := b.frames[n - 1];
            PushPopAll(b, ds).frames == b.frames[..n - 1] + [Frame(top.data, top.children + Leafs(ds))]
    decreases |ds|
  {
    var n := Depth(b);
    var base := b.frames[..n - 1];
    var top := b.frames[n - 1];
    if ds == [] {
      assert b.frames == base + [top];
      assert top.children + Leafs(ds) == top.children;
    } else {
      var p := PushPop(b, ds[0]);
      var kids := top.children + [Node(ds[0], [])];
      assert Depth(p) == n && p.frames[..n - 1] == base && p.frames[n - 1] == Frame(top.data, kids) by {
        assert p.frames == base + [Frame(top.data, kids)];
      }
      PushPopAllSpec(p, ds[1..]);
      assert PushPopAll(b, ds) == PushPopAll(p, ds[1..]);
      assert top.children + Leafs(ds) == kids + Leafs(ds[1..]) by {
        assert Leafs(ds) == [Node(ds[0], [])] + Leafs(ds[1..]);
      }
    }
  }

  function Leafs(ds: seq<Label>): (r: seq<Node>)
    ensures |r| == |ds|
  {
    if ds == [] then [] else [Node(ds[0], [])] + Leafs(ds[1..])
  }

  /** `push(data)`, then leaves, then `pop()`: the old top gains one node
      holding exactly those leaves, and nothing else changes. */
  lemma {:induction false} WrapLeaves(b: Builder, data: Label, ds: seq<Label>)
    ensures var r := Pop(PushPopAll(Push(b, data), ds));
            && Depth(r) == Depth(b)
            && r.frames[..Depth(b) - 1] == b.frames[..Depth(b) - 1]
            && r.frames[Depth(b) - 1].data == b.frames[Depth(b) - 1].data
            && r.frames[Depth(b) - 1].children == b.frames[Depth(b) - 1].children + [Node(data, Leafs(ds))]
  {
    var p := Push(b, data);
    var q := PushPopAll(p, ds);
    PushPopAllSpec(p, ds);
    var n := Depth(b);
    assert p.frames[..n] == b.frames && p.frames[n] == Frame(data, []);
    assert q.frames == b.frames + [Frame(data, [] + Leafs(ds))];
    assert [] + Leafs(ds) == Leafs(ds);
    assert q.frames[n] == Frame(data, Leafs(ds));
    assert q.frames[..n] == b.frames;
    assert q.frames[..n + 1 - 2] == b.frames[..n - 1];
  }
}
