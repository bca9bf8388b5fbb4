/**
 * How svgo runs a per-item pass such as `translate`: every node under the
 * root, in document order, each node before its children. The pass object's
 * `Visit` is called on each node in turn, so the context an element is moved
 * with is the one the last `svg` or `symbol` before it set.
 *
 * The shape of the tree is given as a ghost map from each node to its
 * children, which the pass never changes; `depth` bounds how far the
 * traversal descends, and a tree of smaller height is visited whole.
 */
module TranslateTree {
  import opened Wrappers
  import opened Text
  import opened Xast
  import opened Translate
  import opened TranslateFacts

  /** What the pass reads of an element: its name and its attributes. */
  type ElementView = (string, map<string, string>)

  /**
   * The shape of the tree, as a map from each node to its children. `kids`
   * is closed: every child of a node in it is in it.
   */
  ghost predicate Tree(kids: map<XNode, seq<XNode>>) {
    forall n :: n in kids ==> forall k :: k in kids[n] ==> k in kids
  }

  /** `kids` is the shape the `children` fields currently give. */
  ghost predicate Shaped(kids: map<XNode, seq<XNode>>)
    reads kids.Keys`children
  {
    forall n :: n in kids ==> n.children == kids[n]
  }

  ghost predicate Within(ns: seq<XNode>, kids: map<XNode, seq<XNode>>) {
    forall k :: k in ns ==> k in kids
  }

  /** The nodes of `nodes` and their descendants, each node before its children, down to `depth` levels. */
  ghost function PreOrder(kids: map<XNode, seq<XNode>>, nodes: seq<XNode>, depth: nat): (r: seq<XNode>)
    requires Tree(kids) && Within(nodes, kids)
    ensures Within(r, kids)
    decreases depth, |nodes|
  {
    if nodes == [] || depth == 0 then []
    else [nodes[0]] + PreOrder(kids, kids[nodes[0]], depth - 1) + PreOrder(kids, nodes[1..], depth)
  }

  /** The nodes of `ns`, as a set. */
  ghost function Members(ns: seq<XNode>): set<XNode> {
    set n | n in ns
  }

  /** The name and attributes of each element among `ns`, in order. */
  ghost function Snapshot(ns: seq<XNode>): seq<ElementView>
    reads ns`attributes
  {
    if ns == [] then []
    else (if ns[0].kind == Element then [(ns[0].name, ns[0].attributes)] else []) + Snapshot(ns[1..])
  }

  /** No node is reached twice: the nodes form a forest. */
  ghost predicate Distinct(ns: seq<XNode>) {
    forall i, j :: 0 <= i < j < |ns| ==> ns[i] != ns[j]
  }

  /**
   * The pass run over `elems` in turn: the context it ends with and each
   * element with the attributes it rewrote them to, or `None` as soon as
   * one visit fails.
   */
  function Run(c: Context, elems: seq<ElementView>, p: Params, rt: Runtime): (r: Option<(Context, seq<ElementView>)>)
    ensures r.Some? ==> |r.value.1| == |elems|
    decreases |elems|
  {
    if elems == [] then Some((c, []))
    else match Step(c, elems[0].0, elems[0].1, p, rt)
      case None => None
      case Some(s) =>
        match Run(s.0, elems[1..], p, rt)
        case None => None
        case Some(t) => Some((t.0, [(elems[0].0, s.1)] + t.1))
  }

  /** The pass rewrites attributes only: a run keeps every element's name, in order. */
  lemma {:induction false} RunKeepsNames(c: Context, elems: seq<ElementView>, p: Params, rt: Runtime)
    requires Run(c, elems, p, rt).Some?
    ensures forall i :: 0 <= i < |elems| ==> Run(c, elems, p, rt).value.1[i].0 == elems[i].0
    decreases |elems|
  {
    if elems != [] {
      var s := Step(c, elems[0].0, elems[0].1, p, rt).value;
      RunKeepsNames(s.0, elems[1..], p, rt);
    }
  }

  /** `Run` fails exactly where `Visits` does, and ends with the same context. */
  lemma {:induction false} RunVisits(c: Context, elems: seq<ElementView>, p: Params, rt: Runtime)
    ensures Run(c, elems, p, rt).Some? <==> Visits(c, elems, p, rt).Some?
    ensures Run(c, elems, p, rt).Some? ==> Run(c, elems, p, rt).value.0 == Visits(c, elems, p, rt).value
    decreases |elems|
  {
    if elems != [] {
      match Step(c, elems[0].0, elems[0].1, p, rt)
      case None =>
      case Some(s) => RunVisits(s.0, elems[1..], p, rt);
    }
  }

  /** A run that fails on `a` fails on `a + b`. */
  lemma {:induction false} RunFailsFirst(c: Context, a: seq<ElementView>, b: seq<ElementView>, p: Params, rt: Runtime)
    requires Run(c, a, p, rt) == None
    ensures Run(c, a + b, p, rt) == None
    decreases |a|
  {
    assert (a + b)[0] == a[0] && (a + b)[1..] == a[1..] + b;
    match Step(c, a[0].0, a[0].1, p, rt)
    case None =>
    case Some(s) => RunFailsFirst(s.0, a[1..], b, p, rt);
  }

  /** A run that gets through `a` and then fails on `b` fails on `a + b`. */
  lemma {:induction false} RunFailsSecond(c: Context, a: seq<ElementView>, b: seq<ElementView>,
                                          x: (Context, seq<ElementView>), p: Params, rt: Runtime)
    requires Run(c, a, p, rt) == Some(x) && Run(x.0, b, p, rt) == None
    ensures Run(c, a + b, p, rt) == None
    decreases |a|
  {
    if a == [] {
      assert a + b == b;
    } else {
      assert (a + b)[0] == a[0] && (a + b)[1..] == a[1..] + b;
      var s := Step(c, a[0].0, a[0].1, p, rt).value;
      RunFailsSecond(s.0, a[1..], b, Run(s.0, a[1..], p, rt).value, p, rt);
    }
  }

  /** A run over `a` and then over `b` is a run over `a + b`. */
  lemma {:induction false} RunThen(c: Context, a: seq<ElementView>, b: seq<ElementView>,
                                   x: (Context, seq<ElementView>), y: (Context, seq<ElementView>), p: Params, rt: Runtime)
    requires Run(c, a, p, rt) == Some(x) && Run(x.0, b, p, rt) == Some(y)
    ensures Run(c, a + b, p, rt) == Some((y.0, x.1 + y.1))
    decreases |a|
  {
    if a == [] {
      assert a + b == b && x.1 + y.1 == y.1;
    } else {
      assert (a + b)[0] == a[0] && (a + b)[1..] == a[1..] + b;
      var s := Step(c, a[0].0, a[0].1, p, rt).value;
      var x' := Run(s.0, a[1..], p, rt).value;
      RunThen(s.0, a[1..], b, x', y, p, rt);
      var head := [(a[0].0, s.1)];
      assert Run(c, a + b, p, rt) == Some((y.0, head + (x'.1 + y.1)));
      assert x.1 == head + x'.1;
      Regroup(head, x'.1, y.1);
    }
  }

  /** Running over two lists in a row is running over their concatenation. */
  lemma RunAppend(c: Context, a: seq<ElementView>, b: seq<ElementView>, p: Params, rt: Runtime)
    ensures Run(c, a + b, p, rt) ==
      match Run(c, a, p, rt)
      case None => None
      case Some(x) =>
        match Run(x.0, b, p, rt)
        case None => None
        case Some(y) => Some((y.0, x.1 + y.1))
  {
    match Run(c, a, p, rt)
    case None => RunFailsFirst(c, a, b, p, rt);
    case Some(x) =>
      match Run(x.0, b, p, rt)
      case None => RunFailsSecond(c, a, b, x, p, rt);
      case Some(y) => RunThen(c, a, b, x, y, p, rt);
  }

  /** Visiting two lists in a row is visiting their concatenation. */
  lemma {:induction false} VisitsAppend(c: Context, a: seq<ElementView>, b: seq<ElementView>, p: Params, rt: Runtime)
    ensures Visits(c, a + b, p, rt) == match Visits(c, a, p, rt) case None => None case Some(c2) => Visits(c2, b, p, rt)
    decreases |a|
  {
    if a == [] {
      assert a + b == b;
    } else {
      assert (a + b)[0] == a[0] && (a + b)[1..] == a[1..] + b;
      match Step(c, a[0].0, a[0].1, p, rt)
      case None =>
      case Some(s) => VisitsAppend(s.0, a[1..], b, p, rt);
    }
  }

  // ---------------------------------------------------------------------
  // the pre-order, piece by piece

  lemma {:induction false} PreOrderAppend(a: seq<XNode>, b: seq<XNode>, depth: nat, kids: map<XNode, seq<XNode>>)
    requires Tree(kids) && Within(a, kids) && Within(b, kids)
    ensures PreOrder(kids, a + b, depth) == PreOrder(kids, a, depth) + PreOrder(kids, b, depth)
    decreases |a|
  {
    if a == [] {
      assert a + b == b;
    } else if depth > 0 {
      assert (a + b)[0] == a[0] && (a + b)[1..] == a[1..] + b;
      PreOrderAppend(a[1..], b, depth, kids);
    }
  }

  lemma PreOrderOne(x: XNode, depth: nat, kids: map<XNode, seq<XNode>>)
    requires Tree(kids) && x in kids && depth > 0
    ensures PreOrder(kids, [x], depth) == [x] + PreOrder(kids, kids[x], depth - 1)
  {
    assert [x][1..] == [];
  }

  /**
   * A node is listed right before its descendants, and they come before the
   * node's later siblings: an `svg` is visited before anything inside it.
   */
  lemma NodeBeforeDescendants(nodes: seq<XNode>, depth: nat, kids: map<XNode, seq<XNode>>, j: nat)
    requires Tree(kids) && Within(nodes, kids)
    requires depth > 0 && j < |nodes|
    ensures PreOrder(kids, nodes, depth) ==
      PreOrder(kids, nodes[..j], depth) + [nodes[j]] + PreOrder(kids, kids[nodes[j]], depth - 1) + PreOrder(kids, nodes[j + 1..], depth)
  {
    assert nodes == nodes[..j] + ([nodes[j]] + nodes[j + 1..]);
    PreOrderAppend(nodes[..j], [nodes[j]] + nodes[j + 1..], depth, kids);
    PreOrderAppend([nodes[j]], nodes[j + 1..], depth, kids);
    PreOrderOne(nodes[j], depth, kids);
    var front, inside := PreOrder(kids, nodes[..j], depth), PreOrder(kids, kids[nodes[j]], depth - 1);
    Regroup(front, [nodes[j]] + inside, PreOrder(kids, nodes[j + 1..], depth));
    Regroup(front, [nodes[j]], inside);
  }

  /**
   * `n` is one of `nodes`, or a descendant of one of them, at most `depth`
   * levels down (the nodes themselves being the first level).
   */
  ghost predicate Below(kids: map<XNode, seq<XNode>>, nodes: seq<XNode>, n: XNode, depth: nat)
    requires Tree(kids) && Within(nodes, kids)
    decreases depth
  {
    depth > 0 && exists i :: 0 <= i < |nodes| && (nodes[i] == n || Below(kids, kids[nodes[i]], n, depth - 1))
  }

  /**
   * The traversal reaches exactly the nodes within `depth` levels: every
   * one of them is visited, and nothing else is.
   */
  lemma {:induction false} PreOrderReaches(kids: map<XNode, seq<XNode>>, nodes: seq<XNode>, n: XNode, depth: nat)
    requires Tree(kids) && Within(nodes, kids)
    ensures n in PreOrder(kids, nodes, depth) <==> Below(kids, nodes, n, depth)
    decreases depth, |nodes|
  {
    if depth > 0 && nodes != [] {
      var inside, rest := PreOrder(kids, kids[nodes[0]], depth - 1), PreOrder(kids, nodes[1..], depth);
      assert PreOrder(kids, nodes, depth) == [nodes[0]] + inside + rest;
      PreOrderReaches(kids, kids[nodes[0]], n, depth - 1);
      PreOrderReaches(kids, nodes[1..], n, depth);
      if Below(kids, nodes[1..], n, depth) {
        var i :| 0 <= i < |nodes[1..]| && (nodes[1..][i] == n || Below(kids, kids[nodes[1..][i]], n, depth - 1));
        assert nodes[i + 1] == nodes[1..][i];
      }
      if Below(kids, nodes, n, depth) {
        var i :| 0 <= i < |nodes| && (nodes[i] == n || Below(kids, kids[nodes[i]], n, depth - 1));
        if i > 0 {
          assert nodes[1..][i - 1] == nodes[i];
        }
      }
    }
  }

  lemma {:induction false} SnapshotAppend(a: seq<XNode>, b: seq<XNode>)
    ensures Snapshot(a + b) == Snapshot(a) + Snapshot(b)
    decreases |a|
  {
    if a == [] {
      assert a + b == b;
    } else {
      assert (a + b)[0] == a[0] && (a + b)[1..] == a[1..] + b;
      SnapshotAppend(a[1..], b);
    }
  }

  /**
   * The context an `svg` or `symbol` sets is the one its descendants, and
   * its later siblings, are visited with: whatever the elements before it
   * left in the context, the visits after it start from its own viewBox.
   */
  lemma SvgBeforeDescendants(c: Context, nodes: seq<XNode>, depth: nat, kids: map<XNode, seq<XNode>>, j: nat, p: Params, rt: Runtime)
    requires Tree(kids) && Within(nodes, kids)
    requires depth > 0 && j < |nodes|
    requires nodes[j].kind == Element && Sets(nodes[j].name)
    ensures
      var before := Snapshot(PreOrder(kids, nodes[..j], depth));
      var after := Snapshot(PreOrder(kids, kids[nodes[j]], depth - 1) + PreOrder(kids, nodes[j + 1..], depth));
      Visits(c, Snapshot(PreOrder(kids, nodes, depth)), p, rt) ==
        match Visits(c, before, p, rt)
        case None => None
        case Some(_) =>
          match SvgFit(nodes[j].attributes, p, rt.fmt)
          case None => None
          case Some(fit) => Visits(fit.0, after, p, rt)
  {
    var svg := nodes[j];
    var pre := PreOrder(kids, nodes[..j], depth);
    var inside, later := PreOrder(kids, kids[svg], depth - 1), PreOrder(kids, nodes[j + 1..], depth);
    var rest := inside + later;
    NodeBeforeDescendants(nodes, depth, kids, j);
    Regroup([svg], inside, later);
    Regroup(pre, [svg] + inside, later);
    Regroup(pre, [svg], inside);
    assert PreOrder(kids, nodes, depth) == pre + ([svg] + rest);
    SnapshotAppend(pre, [svg] + rest);
    SnapshotAppend([svg], rest);
    assert [svg][1..] == [];
    assert Snapshot([svg]) == [(svg.name, svg.attributes)];
    VisitsAppend(c, Snapshot(pre), Snapshot([svg] + rest), p, rt);
    assert Snapshot([svg] + rest)[0] == (svg.name, svg.attributes);
    assert Snapshot([svg] + rest)[1..] == Snapshot(rest);
  }

  // ---------------------------------------------------------------------
  // the traversal

  /** Elements whose attributes are as they were in the earlier state read the same. */
  twostate lemma SnapshotKept(ns: seq<XNode>)
    requires forall n :: n in ns ==> n.attributes == old(n.attributes)
    ensures Snapshot(ns) == old(Snapshot(ns))
  {
    if ns != [] {
      SnapshotKept(ns[1..]);
    }
  }

  /** The two halves of a list without repeats have none, and share no node. */
  lemma DistinctTwo(a: seq<XNode>, b: seq<XNode>)
    requires Distinct(a + b)
    ensures Distinct(a) && Distinct(b)
    ensures forall n :: n in a ==> n !in b
  {
    forall n | n in a ensures n !in b {
      var i :| 0 <= i < |a| && a[i] == n;
      forall k | 0 <= k < |b| ensures b[k] != n {
        assert (a + b)[i] == n && (a + b)[|a| + k] == b[k];
      }
    }
    forall i, k | 0 <= i < k < |a| ensures a[i] != a[k] {
      assert (a + b)[i] == a[i] && (a + b)[k] == a[k];
    }
    forall i, k | 0 <= i < k < |b| ensures b[i] != b[k] {
      assert (a + b)[|a| + i] == b[i] && (a + b)[|a| + k] == b[k];
    }
  }

  /**
   * Calls the pass on every node of `nodes` and their descendants, in
   * document order, each node before its children; stops at the first visit
   * that fails. It fails exactly where `Run` over the elements as they were
   * fails; otherwise it ends with `Run`'s context and leaves each element
   * with the attributes `Run` gives it. No other node is touched.
   */
  method VisitAll(pass: TranslatePass, nodes: seq<XNode>, depth: nat, ghost kids: map<XNode, seq<XNode>>,
                  ghost order: seq<XNode>) returns (ok: bool)
    requires Tree(kids) && Shaped(kids) && Within(nodes, kids)
    requires order == PreOrder(kids, nodes, depth) && Distinct(order)
    modifies pass, Members(order)`attributes
    ensures Run(old(pass.Current()), old(Snapshot(order)), pass.params, pass.runtime) ==
      if ok then Some((pass.Current(), Snapshot(order))) else None
    decreases depth, 1, |nodes|, 1
  {
    ok := true;
    if depth == 0 || nodes == [] {
      return;
    }
    var p, rt := pass.params, pass.runtime;
    ghost var c0 := pass.Current();
    ghost var sub := PreOrder(kids, [nodes[0]], depth);
    ghost var rest := PreOrder(kids, nodes[1..], depth);
    FirstPiece(nodes, depth, kids);
    SnapshotAppend(sub, rest);
    ghost var sSub, sRest := Snapshot(sub), Snapshot(rest);

    label BeforeFirst:
    ok := VisitTree(pass, nodes[0], depth, kids, sub);
    SnapshotKept@BeforeFirst(rest);
    if !ok {
      RunFailsFirst(c0, sSub, sRest, p, rt);
      return;
    }
    ok := VisitAfter(pass, nodes[1..], depth, kids, sub, rest, c0, sSub, sRest);
  }

  /**
   * Visits `nodes` once the nodes `done` have been visited, starting from
   * `c0`: the visits so far and these together are one run over both.
   */
  method VisitAfter(pass: TranslatePass, nodes: seq<XNode>, depth: nat, ghost kids: map<XNode, seq<XNode>>,
                    ghost done: seq<XNode>, ghost order: seq<XNode>, ghost c0: Context,
                    ghost sDone: seq<ElementView>, ghost sOrder: seq<ElementView>) returns (ok: bool)
    requires Tree(kids) && Shaped(kids) && Within(nodes, kids)
    requires order == PreOrder(kids, nodes, depth) && Distinct(order)
    requires forall n :: n in done ==> n !in order
    requires Run(c0, sDone, pass.params, pass.runtime) == Some((pass.Current(), Snapshot(done)))
    requires Snapshot(order) == sOrder
    modifies pass, Members(order)`attributes
    ensures Run(c0, sDone + sOrder, pass.params, pass.runtime) ==
      if ok then Some((pass.Current(), Snapshot(done + order))) else None
    decreases depth, 1, |nodes|, 2
  {
    var p, rt := pass.params, pass.runtime;
    ghost var x := (pass.Current(), Snapshot(done));
    label BeforeNodes:
    ok := VisitAll(pass, nodes, depth, kids, order);
    SnapshotKept@BeforeNodes(done);
    if ok {
      RunThen(c0, sDone, sOrder, x, (pass.Current(), Snapshot(order)), p, rt);
      SnapshotAppend(done, order);
    } else {
      RunFailsSecond(c0, sDone, sOrder, x, p, rt);
    }
  }

  /** The pre-order of a list is the first node's subtree, then the rest's. */
  lemma FirstPiece(nodes: seq<XNode>, depth: nat, kids: map<XNode, seq<XNode>>)
    requires Tree(kids) && Within(nodes, kids) && nodes != [] && depth > 0
    requires Distinct(PreOrder(kids, nodes, depth))
    ensures PreOrder(kids, nodes, depth) == PreOrder(kids, [nodes[0]], depth) + PreOrder(kids, nodes[1..], depth)
    ensures Distinct(PreOrder(kids, [nodes[0]], depth)) && Distinct(PreOrder(kids, nodes[1..], depth))
    ensures forall n :: n in PreOrder(kids, [nodes[0]], depth) ==> n !in PreOrder(kids, nodes[1..], depth)
  {
    PreOrderOne(nodes[0], depth, kids);
    DistinctTwo(PreOrder(kids, [nodes[0]], depth), PreOrder(kids, nodes[1..], depth));
  }

  /** Visits `node`, then its descendants: `VisitAll` for one node. */
  method VisitTree(pass: TranslatePass, node: XNode, depth: nat, ghost kids: map<XNode, seq<XNode>>,
                   ghost order: seq<XNode>) returns (ok: bool)
    requires Tree(kids) && Shaped(kids) && node in kids && depth > 0
    requires order == PreOrder(kids, [node], depth) && Distinct(order)
    modifies pass, Members(order)`attributes
    ensures Run(old(pass.Current()), old(Snapshot(order)), pass.params, pass.runtime) ==
      if ok then Some((pass.Current(), Snapshot(order))) else None
    decreases depth, 0
  {
    var p, rt := pass.params, pass.runtime;
    var children := node.children;
    ghost var c0 := pass.Current();
    ghost var inner := PreOrder(kids, children, depth - 1);
    PreOrderOne(node, depth, kids);
    DistinctTwo([node], inner);
    SnapshotAppend([node], inner);
    ghost var sNode, sInner := Snapshot([node]), Snapshot(inner);
    assert old(Snapshot(order)) == sNode + sInner;

    label BeforeVisit:
    ok := VisitOne(pass, node);
    SnapshotKept@BeforeVisit(inner);
    if !ok {
      RunFailsFirst(c0, sNode, sInner, p, rt);
      return;
    }
    ok := VisitAfter(pass, children, depth - 1, kids, [node], inner, c0, sNode, sInner);
    SnapshotAppend([node], inner);
  }

  /** One call of the pass's `Visit`, read as one step of `Run`. */
  method VisitOne(pass: TranslatePass, node: XNode) returns (ok: bool)
    modifies pass, node`attributes
    ensures Run(old(pass.Current()), old(Snapshot([node])), pass.params, pass.runtime) ==
      if ok then Some((pass.Current(), Snapshot([node]))) else None
  {
    assert [node][1..] == [];
    ok := pass.Visit(node);
  }

  /**
   * `translate(height, minWidth, offsetY, offsetX)` applied to a document:
   * a fresh pass whose context starts at scale 1 and offset 0, then every
   * node under the root visited in order.
   */
  method TranslateDocument(root: XNode, height: real, minWidth: real, offsetY: real, offsetX: real, runtime: Runtime,
                           depth: nat, ghost kids: map<XNode, seq<XNode>>)
    returns (ok: bool, pass: TranslatePass)
    requires Tree(kids) && Shaped(kids) && root in kids
    requires Distinct(PreOrder(kids, kids[root], depth))
    modifies Members(PreOrder(kids, kids[root], depth))`attributes
    ensures pass.params == Params(height, minWidth, offsetY, offsetX) && pass.runtime == runtime
    ensures Run(Context(1.0, 0.0, 0.0), old(Snapshot(PreOrder(kids, kids[root], depth))), pass.params, runtime) ==
      if ok then Some((pass.Current(), Snapshot(PreOrder(kids, kids[root], depth)))) else None
  {
    ghost var s0 := Snapshot(PreOrder(kids, kids[root], depth));
    pass := new TranslatePass(height, minWidth, offsetY, offsetX, runtime);
    assert Snapshot(PreOrder(kids, kids[root], depth)) == s0;
    ok := VisitAll(pass, root.children, depth, kids, PreOrder(kids, kids[root], depth));
  }
}
