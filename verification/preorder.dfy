/**
  Pre-order node lists of the syntax tree: a node, then the pre-order lists
  of its children left to right.  This is the order in which a depth-first
  walk with a "pre" callback meets the nodes; the cannot-instrument search
  is proved against it, and the traversal's post-order lists are proved to
  be permutations of it.

  `Children` gives the direct children of one node without recursion; the
  lemmas below show that the per-kind pre-order functions are exactly
  "node, then each child's pre-order" and that a pre-order list is closed
  under taking children, so nothing below a node is left out.
*/
module PreOrder {
  import opened Ast

  function ExprNodes(e: Expr): (ns: seq<Node>)
    ensures |ns| > 0 && ns[0] == ExprNode(e)
  {
    [ExprNode(e)] +
    match e
    case Ident(_, _) => []
    case BasicLit(_) => []
    case Selector(x, _, _) => ExprNodes(x)
    case Unary(_, x) => ExprNodes(x)
    case Binary(_, x, y) => ExprNodes(x) + ExprNodes(y)
    case CompositeLit(t, elts) => ExprNodes(t) + ExprListNodes(elts)
    case KeyValue(k, v) => ExprNodes(k) + ExprNodes(v)
    case Call(f, args) => ExprNodes(f) + ExprListNodes(args)
  }

  function ExprListNodes(es: seq<Expr>): seq<Node>
  {
    if es == [] then [] else ExprNodes(es[0]) + ExprListNodes(es[1..])
  }

  function StmtNodes(s: Stmt): (ns: seq<Node>)
    ensures |ns| > 0 && ns[0] == StmtNode(s)
  {
    [StmtNode(s)] +
    match s
    case ExprStmt(x) => ExprNodes(x)
    case AssignStmt(l, _, r) => ExprListNodes(l) + ExprListNodes(r)
    case BlockStmt(list) => StmtListNodes(list)
    case IfStmt(c, b, els) =>
      ExprNodes(c) + StmtNodes(b) + (match els case Some(e) => StmtNodes(e) case None => [])
    case ReturnStmt(rs) => ExprListNodes(rs)
    case DeclStmt(_) => []
  }

  function StmtListNodes(ss: seq<Stmt>): seq<Node>
  {
    if ss == [] then [] else StmtNodes(ss[0]) + StmtListNodes(ss[1..])
  }

  function ParamNodes(ps: seq<Param>): (ns: seq<Node>)
    ensures |ns| == |ps|
    ensures forall i :: 0 <= i < |ps| ==> ns[i] == ParamNode(ps[i])
  {
    seq(|ps|, i requires 0 <= i < |ps| => ParamNode(ps[i]))
  }

  /** The body block of a function declaration, when it has one. */
  function BodyNodes(body: Option<seq<Stmt>>): seq<Node>
  {
    match body
    case Some(list) => StmtNodes(BlockStmt(list))
    case None => []
  }

  /** A function declaration, its parameters, then its body block. */
  function FuncNodes(fn: FuncDecl): (ns: seq<Node>)
    ensures |ns| > 0 && ns[0] == FuncNode(fn)
  {
    [FuncNode(fn)] + ParamNodes(fn.params) + BodyNodes(fn.body)
  }

  /** The pre-order list of any node. */
  function Nodes(n: Node): seq<Node>
  {
    match n
    case FuncNode(fn) => FuncNodes(fn)
    case ParamNode(_) => [n]
    case StmtNode(s) => StmtNodes(s)
    case ExprNode(e) => ExprNodes(e)
  }

  /** The pre-order lists of `ns`, one after the other. */
  function Flatten(ns: seq<Node>): seq<Node>
  {
    if ns == [] then [] else Nodes(ns[0]) + Flatten(ns[1..])
  }

  function AsExprNodes(es: seq<Expr>): (ns: seq<Node>)
    ensures |ns| == |es|
    ensures forall i :: 0 <= i < |es| ==> ns[i] == ExprNode(es[i])
  {
    seq(|es|, i requires 0 <= i < |es| => ExprNode(es[i]))
  }

  function AsStmtNodes(ss: seq<Stmt>): (ns: seq<Node>)
    ensures |ns| == |ss|
    ensures forall i :: 0 <= i < |ss| ==> ns[i] == StmtNode(ss[i])
  {
    seq(|ss|, i requires 0 <= i < |ss| => StmtNode(ss[i]))
  }

  /** The direct children of a node, left to right, as a syntax-tree walk meets them. */
  function Children(n: Node): seq<Node>
  {
    match n
    case FuncNode(fn) =>
      ParamNodes(fn.params) + (match fn.body case Some(list) => [StmtNode(BlockStmt(list))] case None => [])
    case ParamNode(_) => []
    case StmtNode(s) =>
      (match s
       case ExprStmt(x) => [ExprNode(x)]
       case AssignStmt(l, _, r) => AsExprNodes(l) + AsExprNodes(r)
       case BlockStmt(list) => AsStmtNodes(list)
       case IfStmt(c, b, els) =>
         [ExprNode(c), StmtNode(b)] + (match els case Some(e) => [StmtNode(e)] case None => [])
       case ReturnStmt(rs) => AsExprNodes(rs)
       case DeclStmt(_) => [])
    case ExprNode(e) =>
      (match e
       case Ident(_, _) => []
       case BasicLit(_) => []
       case Selector(x, _, _) => [ExprNode(x)]
       case Unary(_, x) => [ExprNode(x)]
       case Binary(_, x, y) => [ExprNode(x), ExprNode(y)]
       case CompositeLit(t, elts) => [ExprNode(t)] + AsExprNodes(elts)
       case KeyValue(k, v) => [ExprNode(k), ExprNode(v)]
       case Call(f, args) => [ExprNode(f)] + AsExprNodes(args))
  }

  lemma {:induction false} FlattenAppend(a: seq<Node>, b: seq<Node>)
    ensures Flatten(a + b) == Flatten(a) + Flatten(b)
  {
    if a == [] {
      assert a + b == b;
    } else {
      assert (a + b)[1..] == a[1..] + b;
      FlattenAppend(a[1..], b);
    }
  }

  lemma {:induction false} ExprListIsFlatten(es: seq<Expr>)
    ensures ExprListNodes(es) == Flatten(AsExprNodes(es))
  {
    if es != [] {
      assert AsExprNodes(es)[1..] == AsExprNodes(es[1..]);
      ExprListIsFlatten(es[1..]);
    }
  }

  lemma {:induction false} StmtListIsFlatten(ss: seq<Stmt>)
    ensures StmtListNodes(ss) == Flatten(AsStmtNodes(ss))
  {
    if ss != [] {
      assert AsStmtNodes(ss)[1..] == AsStmtNodes(ss[1..]);
      StmtListIsFlatten(ss[1..]);
    }
  }

  lemma {:induction false} ParamsAreFlatten(ps: seq<Param>)
    ensures ParamNodes(ps) == Flatten(ParamNodes(ps))
  {
    if ps != [] {
      assert ParamNodes(ps)[1..] == ParamNodes(ps[1..]);
      ParamsAreFlatten(ps[1..]);
      assert ParamNodes(ps) == [ParamNode(ps[0])] + ParamNodes(ps[1..]);
    }
  }

  /** Pre-order is the node itself followed by its children's pre-order lists, left to right. */
  lemma PreOrderUnfold(n: Node)
    ensures Nodes(n) == [n] + Flatten(Children(n))
  {
    match n
    case FuncNode(fn) => FuncUnfold(fn);
    case ParamNode(_) =>
    case StmtNode(s) => StmtUnfold(s);
    case ExprNode(e) => ExprUnfold(e);
  }

  lemma FlattenSingle(n: Node)
    ensures Flatten([n]) == Nodes(n)
  {
    assert Flatten([n]) == Nodes(n) + Flatten([]);
  }

  lemma FlattenPair(n: Node, m: Node)
    ensures Flatten([n, m]) == Nodes(n) + Nodes(m)
  {
    assert [n, m][1..] == [m];
    FlattenSingle(m);
  }

  lemma FuncUnfold(fn: FuncDecl)
    ensures FuncNodes(fn) == [FuncNode(fn)] + Flatten(Children(FuncNode(fn)))
  {
    ParamsAreFlatten(fn.params);
    match fn.body {
      case Some(list) =>
        var blk := StmtNode(BlockStmt(list));
        FlattenAppend(ParamNodes(fn.params), [blk]);
        FlattenSingle(blk);
      case None =>
        assert ParamNodes(fn.params) + [] == ParamNodes(fn.params);
    }
  }

  lemma StmtUnfold(s: Stmt)
    ensures StmtNodes(s) == [StmtNode(s)] + Flatten(Children(StmtNode(s)))
  {
    match s
    case ExprStmt(x) =>
      FlattenSingle(ExprNode(x));
    case AssignStmt(l, _, r) =>
      FlattenAppend(AsExprNodes(l), AsExprNodes(r));
      ExprListIsFlatten(l);
      ExprListIsFlatten(r);
    case BlockStmt(list) =>
      StmtListIsFlatten(list);
    case IfStmt(c, b, els) =>
      var tail := match els case Some(e) => [StmtNode(e)] case None => [];
      FlattenAppend([ExprNode(c), StmtNode(b)], tail);
      FlattenPair(ExprNode(c), StmtNode(b));
      match els {
        case Some(e) => FlattenSingle(StmtNode(e));
        case None =>
      }
    case ReturnStmt(rs) =>
      ExprListIsFlatten(rs);
    case DeclStmt(_) =>
  }

  lemma ExprUnfold(e: Expr)
    ensures ExprNodes(e) == [ExprNode(e)] + Flatten(Children(ExprNode(e)))
  {
    match e
    case Ident(_, _) =>
    case BasicLit(_) =>
    case Selector(x, _, _) =>
      FlattenSingle(ExprNode(x));
    case Unary(_, x) =>
      FlattenSingle(ExprNode(x));
    case Binary(_, x, y) =>
      FlattenPair(ExprNode(x), ExprNode(y));
    case CompositeLit(t, elts) =>
      FlattenAppend([ExprNode(t)], AsExprNodes(elts));
      ExprListIsFlatten(elts);
      FlattenSingle(ExprNode(t));
    case KeyValue(k, v) =>
      FlattenPair(ExprNode(k), ExprNode(v));
    case Call(f, args) =>
      FlattenAppend([ExprNode(f)], AsExprNodes(args));
      ExprListIsFlatten(args);
      FlattenSingle(ExprNode(f));
  }

  /** Every node of `Flatten(ns)` lies in the pre-order list of one of `ns`, no longer than the whole. */
  lemma {:induction false} FlattenMember(ns: seq<Node>, m: Node) returns (c: Node)
    requires m in Flatten(ns)
    ensures c in ns && m in Nodes(c) && |Nodes(c)| <= |Flatten(ns)|
  {
    if m in Nodes(ns[0]) {
      c := ns[0];
    } else {
      c := FlattenMember(ns[1..], m);
    }
  }

  /** Each of `ns` is itself in `Flatten(ns)`: its pre-order list starts with it. */
  lemma {:induction false} FlattenContains(ns: seq<Node>, c: Node)
    requires c in ns
    ensures c in Flatten(ns)
  {
    PreOrderUnfold(ns[0]);
    if c != ns[0] {
      FlattenContains(ns[1..], c);
    }
  }

  /**
    A pre-order list is closed under children: whenever a node is listed, so
    is each of its children.  By induction, every descendant of `n` is in
    `Nodes(n)`; no subtree is skipped.
  */
  lemma {:induction false} ChildrenAreListed(n: Node, m: Node, c: Node)
    requires m in Nodes(n) && c in Children(m)
    ensures c in Nodes(n)
    decreases |Nodes(n)|
  {
    PreOrderUnfold(n);
    if m == n {
      FlattenContains(Children(n), c);
    } else {
      var k := FlattenMember(Children(n), m);
      ChildrenAreListed(k, m, c);
      FlattenContains(Children(n), k);
      SubtreeListed(Children(n), k, c);
    }
  }

  /** A node in the pre-order list of one of `ns` is in `Flatten(ns)`. */
  lemma {:induction false} SubtreeListed(ns: seq<Node>, k: Node, c: Node)
    requires k in ns && c in Nodes(k)
    ensures c in Flatten(ns)
  {
    if k != ns[0] {
      SubtreeListed(ns[1..], k, c);
    }
  }
}
