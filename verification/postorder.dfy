/**
  Post-order node lists of the syntax tree: the post-order lists of a node's
  children left to right, then the node itself.  This is the order in which
  a depth-first walk with a "post" callback meets the nodes, and it is the
  reference the traversal driver is proved against.

  The lemmas below show that the per-kind post-order functions are exactly
  "each child's post-order, then the node", and that a post-order list holds
  the same nodes as the pre-order list of the same node, each as often, so
  that a post-order list is closed under taking children as well.
*/
module PostOrder {
  import opened Ast
  import opened PreOrder

  function ExprPost(e: Expr): (ns: seq<Node>)
    ensures |ns| > 0 && ns[|ns| - 1] == ExprNode(e)
  {
    (match e
     case Ident(_, _) => []
     case BasicLit(_) => []
     case Selector(x, _, _) => ExprPost(x)
     case Unary(_, x) => ExprPost(x)
     case Binary(_, x, y) => ExprPost(x) + ExprPost(y)
     case CompositeLit(t, elts) => ExprPost(t) + ExprListPost(elts)
     case KeyValue(k, v) => ExprPost(k) + ExprPost(v)
     case Call(f, args) => ExprPost(f) + ExprListPost(args))
    + [ExprNode(e)]
  }

  function ExprListPost(es: seq<Expr>): seq<Node>
  {
    if es == [] then [] else ExprPost(es[0]) + ExprListPost(es[1..])
  }

  function StmtPost(s: Stmt): (ns: seq<Node>)
    ensures |ns| > 0 && ns[|ns| - 1] == StmtNode(s)
  {
    (match s
     case ExprStmt(x) => ExprPost(x)
     case AssignStmt(l, _, r) => ExprListPost(l) + ExprListPost(r)
     case BlockStmt(list) => StmtListPost(list)
     case IfStmt(c, b, els) =>
       ExprPost(c) + StmtPost(b) + (match els case Some(e) => StmtPost(e) case None => [])
     case ReturnStmt(rs) => ExprListPost(rs)
     case DeclStmt(_) => [])
    + [StmtNode(s)]
  }

  function StmtListPost(ss: seq<Stmt>): seq<Node>
  {
    if ss == [] then [] else StmtPost(ss[0]) + StmtListPost(ss[1..])
  }

  /** The body block of a function declaration, when it has one. */
  function BodyPost(body: Option<seq<Stmt>>): seq<Node>
  {
    match body
    case Some(list) => StmtPost(BlockStmt(list))
    case None => []
  }

  /** The parameters, then the body block, then the declaration itself. */
  function FuncPost(fn: FuncDecl): (ns: seq<Node>)
    ensures |ns| > 0 && ns[|ns| - 1] == FuncNode(fn)
  {
    ParamNodes(fn.params) + BodyPost(fn.body) + [FuncNode(fn)]
  }

  /** The post-order list of any node. */
  function Post(n: Node): seq<Node>
  {
    match n
    case FuncNode(fn) => FuncPost(fn)
    case ParamNode(_) => [n]
    case StmtNode(s) => StmtPost(s)
    case ExprNode(e) => ExprPost(e)
  }

  /** The post-order lists of `ns`, one after the other. */
  function FlattenPost(ns: seq<Node>): seq<Node>
  {
    if ns == [] then [] else Post(ns[0]) + FlattenPost(ns[1..])
  }

  lemma {:induction false} FlattenPostAppend(a: seq<Node>, b: seq<Node>)
    ensures FlattenPost(a + b) == FlattenPost(a) + FlattenPost(b)
  {
    if a == [] {
      assert a + b == b;
    } else {
      assert (a + b)[1..] == a[1..] + b;
      FlattenPostAppend(a[1..], b);
    }
  }

  lemma {:induction false} ExprListIsFlattenPost(es: seq<Expr>)
    ensures ExprListPost(es) == FlattenPost(AsExprNodes(es))
  {
    if es != [] {
      assert AsExprNodes(es)[1..] == AsExprNodes(es[1..]);
      ExprListIsFlattenPost(es[1..]);
    }
  }

  lemma {:induction false} StmtListIsFlattenPost(ss: seq<Stmt>)
    ensures StmtListPost(ss) == FlattenPost(AsStmtNodes(ss))
  {
    if ss != [] {
      assert AsStmtNodes(ss)[1..] == AsStmtNodes(ss[1..]);
      StmtListIsFlattenPost(ss[1..]);
    }
  }

  lemma {:induction false} ParamsAreFlattenPost(ps: seq<Param>)
    ensures ParamNodes(ps) == FlattenPost(ParamNodes(ps))
  {
    if ps != [] {
      assert ParamNodes(ps)[1..] == ParamNodes(ps[1..]);
      ParamsAreFlattenPost(ps[1..]);
      assert ParamNodes(ps) == [ParamNode(ps[0])] + ParamNodes(ps[1..]);
    }
  }

  lemma FlattenPostSingle(n: Node)
    ensures FlattenPost([n]) == Post(n)
  {
    assert FlattenPost([n]) == Post(n) + FlattenPost([]);
  }

  lemma FlattenPostPair(n: Node, m: Node)
    ensures FlattenPost([n, m]) == Post(n) + Post(m)
  {
    assert [n, m][1..] == [m];
    FlattenPostSingle(m);
  }

  /** Post-order is the children's post-order lists, left to right, followed by the node itself. */
  lemma PostOrderUnfold(n: Node)
    ensures Post(n) == FlattenPost(Children(n)) + [n]
  {
    match n
    case FuncNode(fn) => FuncPostUnfold(fn);
    case ParamNode(_) =>
    case StmtNode(s) => StmtPostUnfold(s);
    case ExprNode(e) => ExprPostUnfold(e);
  }

  lemma FuncPostUnfold(fn: FuncDecl)
    ensures FuncPost(fn) == FlattenPost(Children(FuncNode(fn))) + [FuncNode(fn)]
  {
    ParamsAreFlattenPost(fn.params);
    match fn.body {
      case Some(list) =>
        var blk := StmtNode(BlockStmt(list));
        FlattenPostAppend(ParamNodes(fn.params), [blk]);
        FlattenPostSingle(blk);
      case None =>
        assert ParamNodes(fn.params) + [] == ParamNodes(fn.params);
    }
  }

  lemma StmtPostUnfold(s: Stmt)
    ensures StmtPost(s) == FlattenPost(Children(StmtNode(s))) + [StmtNode(s)]
  {
    match s
    case ExprStmt(x) =>
      FlattenPostSingle(ExprNode(x));
    case AssignStmt(l, _, r) =>
      FlattenPostAppend(AsExprNodes(l), AsExprNodes(r));
      ExprListIsFlattenPost(l);
      ExprListIsFlattenPost(r);
    case BlockStmt(list) =>
      StmtListIsFlattenPost(list);
    case IfStmt(c, b, els) =>
      var tail := match els case Some(e) => [StmtNode(e)] case None => [];
      FlattenPostAppend([ExprNode(c), StmtNode(b)], tail);
      FlattenPostPair(ExprNode(c), StmtNode(b));
      match els {
        case Some(e) => FlattenPostSingle(StmtNode(e));
        case None =>
      }
    case ReturnStmt(rs) =>
      ExprListIsFlattenPost(rs);
    case DeclStmt(_) =>
  }

  lemma ExprPostUnfold(e: Expr)
    ensures ExprPost(e) == FlattenPost(Children(ExprNode(e))) + [ExprNode(e)]
  {
    match e
    case Ident(_, _) =>
    case BasicLit(_) =>
    case Selector(x, _, _) =>
      FlattenPostSingle(ExprNode(x));
    case Unary(_, x) =>
      FlattenPostSingle(ExprNode(x));
    case Binary(_, x, y) =>
      FlattenPostPair(ExprNode(x), ExprNode(y));
    case CompositeLit(t, elts) =>
      FlattenPostAppend([ExprNode(t)], AsExprNodes(elts));
      ExprListIsFlattenPost(elts);
      FlattenPostSingle(ExprNode(t));
    case KeyValue(k, v) =>
      FlattenPostPair(ExprNode(k), ExprNode(v));
    case Call(f, args) =>
      FlattenPostAppend([ExprNode(f)], AsExprNodes(args));
      ExprListIsFlattenPost(args);
      FlattenPostSingle(ExprNode(f));
  }

  /** Moving a node from the front of a list to its back keeps the same nodes. */
  lemma Rotate(post: seq<Node>, pre: seq<Node>, n: Node)
    requires multiset(post) == multiset(pre)
    ensures multiset(post + [n]) == multiset([n] + pre)
  {
  }

  lemma Concat(a: seq<Node>, b: seq<Node>, c: seq<Node>, d: seq<Node>)
    requires multiset(a) == multiset(b) && multiset(c) == multiset(d)
    ensures multiset(a + c) == multiset(b + d)
  {
  }

  /** The post-order and pre-order lists of an expression hold the same nodes, each as often. */
  lemma {:induction false} ExprSameNodes(e: Expr)
    ensures multiset(ExprPost(e)) == multiset(ExprNodes(e))
  {
    var n := ExprNode(e);
    match e
    case Ident(_, _) =>
    case BasicLit(_) =>
    case Selector(x, _, _) =>
      ExprSameNodes(x);
      Rotate(ExprPost(x), ExprNodes(x), n);
    case Unary(_, x) =>
      ExprSameNodes(x);
      Rotate(ExprPost(x), ExprNodes(x), n);
    case Binary(_, x, y) =>
      ExprSameNodes(x);
      ExprSameNodes(y);
      Concat(ExprPost(x), ExprNodes(x), ExprPost(y), ExprNodes(y));
      Rotate(ExprPost(x) + ExprPost(y), ExprNodes(x) + ExprNodes(y), n);
    case CompositeLit(t, elts) =>
      ExprSameNodes(t);
      ExprListSameNodes(elts);
      Concat(ExprPost(t), ExprNodes(t), ExprListPost(elts), ExprListNodes(elts));
      Rotate(ExprPost(t) + ExprListPost(elts), ExprNodes(t) + ExprListNodes(elts), n);
    case KeyValue(k, v) =>
      ExprSameNodes(k);
      ExprSameNodes(v);
      Concat(ExprPost(k), ExprNodes(k), ExprPost(v), ExprNodes(v));
      Rotate(ExprPost(k) + ExprPost(v), ExprNodes(k) + ExprNodes(v), n);
    case Call(f, args) =>
      ExprSameNodes(f);
      ExprListSameNodes(args);
      Concat(ExprPost(f), ExprNodes(f), ExprListPost(args), ExprListNodes(args));
      Rotate(ExprPost(f) + ExprListPost(args), ExprNodes(f) + ExprListNodes(args), n);
  }

  lemma {:induction false} ExprListSameNodes(es: seq<Expr>)
    ensures multiset(ExprListPost(es)) == multiset(ExprListNodes(es))
  {
    if es != [] {
      ExprSameNodes(es[0]);
      ExprListSameNodes(es[1..]);
    }
  }

  lemma {:induction false} StmtSameNodes(s: Stmt)
    ensures multiset(StmtPost(s)) == multiset(StmtNodes(s))
  {
    var n := StmtNode(s);
    match s
    case ExprStmt(x) =>
      ExprSameNodes(x);
      Rotate(ExprPost(x), ExprNodes(x), n);
    case AssignStmt(l, _, r) =>
      ExprListSameNodes(l);
      ExprListSameNodes(r);
      Concat(ExprListPost(l), ExprListNodes(l), ExprListPost(r), ExprListNodes(r));
      Rotate(ExprListPost(l) + ExprListPost(r), ExprListNodes(l) + ExprListNodes(r), n);
    case BlockStmt(list) =>
      StmtListSameNodes(list);
      Rotate(StmtListPost(list), StmtListNodes(list), n);
    case IfStmt(c, b, els) =>
      var tailPost := match els case Some(x) => StmtPost(x) case None => [];
      var tailPre := match els case Some(x) => StmtNodes(x) case None => [];
      ExprSameNodes(c);
      StmtSameNodes(b);
      match els {
        case Some(x) => StmtSameNodes(x);
        case None =>
      }
      Concat(ExprPost(c), ExprNodes(c), StmtPost(b), StmtNodes(b));
      Concat(ExprPost(c) + StmtPost(b), ExprNodes(c) + StmtNodes(b), tailPost, tailPre);
      Rotate(ExprPost(c) + StmtPost(b) + tailPost, ExprNodes(c) + StmtNodes(b) + tailPre, n);
    case ReturnStmt(rs) =>
      ExprListSameNodes(rs);
      Rotate(ExprListPost(rs), ExprListNodes(rs), n);
    case DeclStmt(_) =>
  }

  lemma {:induction false} StmtListSameNodes(ss: seq<Stmt>)
    ensures multiset(StmtListPost(ss)) == multiset(StmtListNodes(ss))
  {
    if ss != [] {
      StmtSameNodes(ss[0]);
      StmtListSameNodes(ss[1..]);
    }
  }

  /**
    The post-order list of any node is a permutation of its pre-order list:
    a walk that calls back after the children meets the same nodes as one
    that calls back before them, only in another order.
  */
  lemma SameNodes(n: Node)
    ensures multiset(Post(n)) == multiset(Nodes(n))
  {
    match n
    case FuncNode(fn) =>
      match fn.body {
        case Some(list) => StmtSameNodes(BlockStmt(list));
        case None =>
      }
    case ParamNode(_) =>
    case StmtNode(s) => StmtSameNodes(s);
    case ExprNode(e) => ExprSameNodes(e);
  }

  /** A node is in the post-order list exactly when it is in the pre-order list. */
  lemma PostMember(n: Node, m: Node)
    ensures m in Post(n) <==> m in Nodes(n)
  {
    SameNodes(n);
    assert m in Post(n) <==> m in multiset(Post(n));
    assert m in Nodes(n) <==> m in multiset(Nodes(n));
  }

  /**
    A post-order list is closed under children: whenever a node is listed,
    so is each of its children, so no subtree below the root is left out.
  */
  lemma PostChildrenAreListed(n: Node, m: Node, c: Node)
    requires m in Post(n) && c in Children(m)
    ensures c in Post(n)
  {
    PostMember(n, m);
    PostMember(n, c);
    ChildrenAreListed(n, m, c);
  }
}
