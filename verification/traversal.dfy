/**
  The traversal driver `instrumentPackage` (parser/main.go): for each file of
  the package, for each function declaration of the file, walk the whole
  declaration depth first and, at every node the walk meets, call each
  instrumentation function in the order the caller passed them.

  The instrumentation functions themselves are opaque: a function is a label
  of any type `L`, and calling it at a node appends `Event(label, node)` to
  an event log.  The source hands its callback to the syntax-tree library's
  walk as the "post" function (the "pre" function is nil), so the functions
  run at a node after the walk has finished all of the node's children: the
  walk of a declaration meets its nodes in post-order, the declaration last.
*/
module Traversal {
  import opened Ast
  import opened PreOrder
  import opened PostOrder

  /** One call of an instrumentation function `fn` at `node`. */
  datatype Event<L> = Event(fn: L, node: Node)

  /** The callback's answers at each node: the instrumentation functions in order. */
  function Invoke<L>(n: Node, fns: seq<L>): (r: seq<Event<L>>)
    ensures |r| == |fns|
    ensures forall j :: 0 <= j < |fns| ==> r[j] == Event(fns[j], n)
  {
    seq(|fns|, j requires 0 <= j < |fns| => Event(fns[j], n))
  }

  /** Reference log: every node of `ns` in order, each expanded by every function of `fns` in order. */
  function Expand<L>(ns: seq<Node>, fns: seq<L>): (r: seq<Event<L>>)
    ensures |r| == |ns| * |fns|
  {
    if ns == [] then [] else Invoke(ns[0], fns) + Expand(ns[1..], fns)
  }

  /**
    The walk of an expression: each child's walk left to right, then the
    instrumentation functions at the expression itself.  The callback is the
    walk's "post" function, called once a node's children are done; its
    answer only says whether to abort the walk, and the source's callback
    never aborts.
  */
  function ApplyExpr<L>(e: Expr, fns: seq<L>): seq<Event<L>>
  {
    (match e
     case Ident(_, _) => []
     case BasicLit(_) => []
     case Selector(x, _, _) => ApplyExpr(x, fns)
     case Unary(_, x) => ApplyExpr(x, fns)
     case Binary(_, x, y) => ApplyExpr(x, fns) + ApplyExpr(y, fns)
     case CompositeLit(t, elts) => ApplyExpr(t, fns) + ApplyExprs(elts, fns)
     case KeyValue(k, v) => ApplyExpr(k, fns) + ApplyExpr(v, fns)
     case Call(f, args) => ApplyExpr(f, fns) + ApplyExprs(args, fns))
    + Invoke(ExprNode(e), fns)
  }

  function ApplyExprs<L>(es: seq<Expr>, fns: seq<L>): seq<Event<L>>
  {
    if es == [] then [] else ApplyExpr(es[0], fns) + ApplyExprs(es[1..], fns)
  }

  function ApplyStmt<L>(s: Stmt, fns: seq<L>): seq<Event<L>>
  {
    (match s
     case ExprStmt(x) => ApplyExpr(x, fns)
     case AssignStmt(l, _, r) => ApplyExprs(l, fns) + ApplyExprs(r, fns)
     case BlockStmt(list) => ApplyStmts(list, fns)
     case IfStmt(c, b, els) =>
       ApplyExpr(c, fns) + ApplyStmt(b, fns) +
       (match els case Some(e) => ApplyStmt(e, fns) case None => [])
     case ReturnStmt(rs) => ApplyExprs(rs, fns)
     case DeclStmt(_) => [])
    + Invoke(StmtNode(s), fns)
  }

  function ApplyStmts<L>(ss: seq<Stmt>, fns: seq<L>): seq<Event<L>>
  {
    if ss == [] then [] else ApplyStmt(ss[0], fns) + ApplyStmts(ss[1..], fns)
  }

  function ApplyParams<L>(ps: seq<Param>, fns: seq<L>): seq<Event<L>>
  {
    if ps == [] then [] else Invoke(ParamNode(ps[0]), fns) + ApplyParams(ps[1..], fns)
  }

  /** The walk of one function declaration: its parameters, its body block, then the declaration. */
  function ApplyFunc<L>(fn: FuncDecl, fns: seq<L>): seq<Event<L>>
  {
    ApplyParams(fn.params, fns) +
    (match fn.body case Some(list) => ApplyStmt(BlockStmt(list), fns) case None => []) +
    Invoke(FuncNode(fn), fns)
  }

  /** The post-order lists of `fs`, one declaration after the other. */
  function NodesOf(fs: seq<FuncDecl>): seq<Node>
  {
    if fs == [] then [] else FuncPost(fs[0]) + NodesOf(fs[1..])
  }

  lemma {:induction false} ExpandAppend<L>(a: seq<Node>, b: seq<Node>, fns: seq<L>)
    ensures Expand(a + b, fns) == Expand(a, fns) + Expand(b, fns)
  {
    if a == [] {
      assert a + b == b;
    } else {
      assert (a + b)[1..] == a[1..] + b;
      ExpandAppend(a[1..], b, fns);
    }
  }

  lemma {:induction false} NodesOfAppend(a: seq<FuncDecl>, b: seq<FuncDecl>)
    ensures NodesOf(a + b) == NodesOf(a) + NodesOf(b)
  {
    if a == [] {
      assert a + b == b;
    } else {
      assert (a + b)[1..] == a[1..] + b;
      NodesOfAppend(a[1..], b);
    }
  }

  /**
    At the node with index `i` of the visited list, the instrumentation
    function with index `j` is the `i * |fns| + j`-th call of the whole log:
    every function once per node, in the order the caller passed them.
  */
  lemma {:induction false} ExpandIndex<L>(ns: seq<Node>, fns: seq<L>, i: int, j: int)
    requires 0 <= i < |ns| && 0 <= j < |fns|
    ensures 0 <= i * |fns| + j < |Expand(ns, fns)|
    ensures Expand(ns, fns)[i * |fns| + j] == Event(fns[j], ns[i])
  {
    var k := |fns|;
    if i > 0 {
      ExpandIndex(ns[1..], fns, i - 1, j);
      assert i * k + j == k + ((i - 1) * k + j);
    }
  }

  /** A call appears in the log exactly when its function was passed and its node was visited. */
  lemma {:induction false} ExpandMember<L>(ns: seq<Node>, fns: seq<L>, f: L, m: Node)
    ensures Event(f, m) in Expand(ns, fns) <==> f in fns && m in ns
  {
    if ns != [] {
      ExpandMember(ns[1..], fns, f, m);
      assert ns == [ns[0]] + ns[1..];
      if f in fns && m == ns[0] {
        var j :| 0 <= j < |fns| && fns[j] == f;
        assert Invoke(ns[0], fns)[j] == Event(f, m);
      }
    }
  }

  lemma {:induction false} ApplyExprComplete<L>(e: Expr, fns: seq<L>)
    ensures ApplyExpr(e, fns) == Expand(ExprPost(e), fns)
  {
    var last := [ExprNode(e)];
    assert Expand(last, fns) == Invoke(ExprNode(e), fns) by {
      assert last[1..] == [];
    }
    match e
    case Ident(_, _) =>
    case BasicLit(_) =>
    case Selector(x, _, _) =>
      ApplyExprComplete(x, fns);
      ExpandAppend(ExprPost(x), last, fns);
    case Unary(_, x) =>
      ApplyExprComplete(x, fns);
      ExpandAppend(ExprPost(x), last, fns);
    case Binary(_, x, y) =>
      ApplyExprComplete(x, fns);
      ApplyExprComplete(y, fns);
      ExpandAppend(ExprPost(x), ExprPost(y), fns);
      ExpandAppend(ExprPost(x) + ExprPost(y), last, fns);
    case CompositeLit(t, elts) =>
      ApplyExprComplete(t, fns);
      ApplyExprsComplete(elts, fns);
      ExpandAppend(ExprPost(t), ExprListPost(elts), fns);
      ExpandAppend(ExprPost(t) + ExprListPost(elts), last, fns);
    case KeyValue(k, v) =>
      ApplyExprComplete(k, fns);
      ApplyExprComplete(v, fns);
      ExpandAppend(ExprPost(k), ExprPost(v), fns);
      ExpandAppend(ExprPost(k) + ExprPost(v), last, fns);
    case Call(f, args) =>
      ApplyExprComplete(f, fns);
      ApplyExprsComplete(args, fns);
      ExpandAppend(ExprPost(f), ExprListPost(args), fns);
      ExpandAppend(ExprPost(f) + ExprListPost(args), last, fns);
  }

  lemma {:induction false} ApplyExprsComplete<L>(es: seq<Expr>, fns: seq<L>)
    ensures ApplyExprs(es, fns) == Expand(ExprListPost(es), fns)
  {
    if es != [] {
      ApplyExprComplete(es[0], fns);
      ApplyExprsComplete(es[1..], fns);
      ExpandAppend(ExprPost(es[0]), ExprListPost(es[1..]), fns);
    }
  }

  lemma {:induction false} ApplyStmtComplete<L>(s: Stmt, fns: seq<L>)
    ensures ApplyStmt(s, fns) == Expand(StmtPost(s), fns)
  {
    var last := [StmtNode(s)];
    assert Expand(last, fns) == Invoke(StmtNode(s), fns) by {
      assert last[1..] == [];
    }
    match s
    case ExprStmt(x) =>
      ApplyExprComplete(x, fns);
      ExpandAppend(ExprPost(x), last, fns);
    case AssignStmt(l, _, r) =>
      ApplyExprsComplete(l, fns);
      ApplyExprsComplete(r, fns);
      ExpandAppend(ExprListPost(l), ExprListPost(r), fns);
      ExpandAppend(ExprListPost(l) + ExprListPost(r), last, fns);
    case BlockStmt(list) =>
      ApplyStmtsComplete(list, fns);
      ExpandAppend(StmtListPost(list), last, fns);
    case IfStmt(c, b, els) =>
      var tail := match els case Some(e) => StmtPost(e) case None => [];
      ApplyExprComplete(c, fns);
      ApplyStmtComplete(b, fns);
      match els {
        case Some(e) => ApplyStmtComplete(e, fns);
        case None =>
      }
      ExpandAppend(ExprPost(c), StmtPost(b), fns);
      ExpandAppend(ExprPost(c) + StmtPost(b), tail, fns);
      ExpandAppend(ExprPost(c) + StmtPost(b) + tail, last, fns);
    case ReturnStmt(rs) =>
      ApplyExprsComplete(rs, fns);
      ExpandAppend(ExprListPost(rs), last, fns);
    case DeclStmt(_) =>
  }

  lemma {:induction false} ApplyStmtsComplete<L>(ss: seq<Stmt>, fns: seq<L>)
    ensures ApplyStmts(ss, fns) == Expand(StmtListPost(ss), fns)
  {
    if ss != [] {
      ApplyStmtComplete(ss[0], fns);
      ApplyStmtsComplete(ss[1..], fns);
      ExpandAppend(StmtPost(ss[0]), StmtListPost(ss[1..]), fns);
    }
  }

  lemma {:induction false} ApplyParamsComplete<L>(ps: seq<Param>, fns: seq<L>)
    ensures ApplyParams(ps, fns) == Expand(ParamNodes(ps), fns)
  {
    if ps != [] {
      ApplyParamsComplete(ps[1..], fns);
      assert ParamNodes(ps)[1..] == ParamNodes(ps[1..]);
    }
  }

  /**
    The walk of a function declaration calls the functions at exactly the
    declaration's post-order node list, each node expanded by the whole
    function list: every node after all of its children, the declaration
    last.
  */
  lemma ApplyFuncComplete<L>(fn: FuncDecl, fns: seq<L>)
    ensures ApplyFunc(fn, fns) == Expand(FuncPost(fn), fns)
  {
    var last := [FuncNode(fn)];
    assert Expand(last, fns) == Invoke(FuncNode(fn), fns) by {
      assert last[1..] == [];
    }
    ApplyParamsComplete(fn.params, fns);
    match fn.body {
      case Some(list) => ApplyStmtComplete(BlockStmt(list), fns);
      case None =>
    }
    ExpandAppend(ParamNodes(fn.params), BodyPost(fn.body), fns);
    ExpandAppend(ParamNodes(fn.params) + BodyPost(fn.body), last, fns);
  }

  /** The log grows by one declaration's walk (nothing for a general declaration). */
  lemma DeclStep<L>(done: seq<FuncDecl>, ds: seq<Decl>, j: int, fns: seq<L>)
    requires 0 <= j < |ds|
    ensures Expand(NodesOf(done + DeclFuncs(ds[..j + 1])), fns)
         == Expand(NodesOf(done + DeclFuncs(ds[..j])), fns)
            + (if ds[j].FuncD? then ApplyFunc(ds[j].fn, fns) else [])
  {
    var before := done + DeclFuncs(ds[..j]);
    assert ds[..j + 1][..j] == ds[..j];
    if ds[j].FuncD? {
      var fn := ds[j].fn;
      ApplyFuncComplete(fn, fns);
      assert done + DeclFuncs(ds[..j + 1]) == before + [fn];
      NodesOfAppend(before, [fn]);
      assert NodesOf([fn]) == FuncPost(fn) by {
        assert [fn][..0] == [];
      }
      ExpandAppend(NodesOf(before), FuncPost(fn), fns);
    } else {
      assert DeclFuncs(ds[..j + 1]) == DeclFuncs(ds[..j]);
    }
  }

  /**
    `instrumentPackage`: files in package order, declarations in file order,
    only function declarations walked; the log is the post-order node list of
    the package's function declarations expanded by the function list.
  */
  method InstrumentPackage<L>(pkg: Package, fns: seq<L>) returns (log: seq<Event<L>>)
    ensures log == Expand(NodesOf(FuncDecls(pkg)), fns)
  {
    log := [];
    for i := 0 to |pkg.files|
      invariant log == Expand(NodesOf(FileFuncs(pkg.files[..i])), fns)
    {
      var file := pkg.files[i];
      var done := FileFuncs(pkg.files[..i]);
      assert done + DeclFuncs(file.decls[..0]) == done;
      for j := 0 to |file.decls|
        invariant log == Expand(NodesOf(done + DeclFuncs(file.decls[..j])), fns)
      {
        DeclStep(done, file.decls, j, fns);
        if file.decls[j].FuncD? {
          log := log + ApplyFunc(file.decls[j].fn, fns);
        }
      }
      assert file.decls[..|file.decls|] == file.decls;
      assert pkg.files[..i + 1][..i] == pkg.files[..i];
    }
    assert pkg.files[..|pkg.files|] == pkg.files;
  }

  /** Only function declarations are walked: every logged node belongs to one of them. */
  lemma {:induction false} OnlyFunctionsVisited(fs: seq<FuncDecl>, m: Node)
    requires m in NodesOf(fs)
    ensures exists f :: f in fs && m in FuncPost(f)
  {
    if m in FuncPost(fs[0]) {
      assert fs[0] in fs;
    } else {
      OnlyFunctionsVisited(fs[1..], m);
      var f :| f in fs[1..] && m in FuncPost(f);
      assert f in fs;
    }
  }

  /** Every node of every function declaration is logged (for each function passed). */
  lemma {:induction false} EveryFunctionNodeVisited(fs: seq<FuncDecl>, f: FuncDecl, m: Node)
    requires f in fs && m in FuncPost(f)
    ensures m in NodesOf(fs)
  {
    if f != fs[0] {
      EveryFunctionNodeVisited(fs[1..], f, m);
    }
  }

  /**
    No subtree is pruned: for a node the walk of a package's function
    declaration reaches, every instrumentation function is also called at
    each child of that node.
  */
  lemma NoSubtreePruned<L>(pkg: Package, fns: seq<L>, f: FuncDecl, m: Node, c: Node, g: L)
    requires f in FuncDecls(pkg) && m in FuncPost(f) && c in Children(m) && g in fns
    ensures Event(g, c) in Expand(NodesOf(FuncDecls(pkg)), fns)
  {
    assert Post(FuncNode(f)) == FuncPost(f);
    PostChildrenAreListed(FuncNode(f), m, c);
    EveryFunctionNodeVisited(FuncDecls(pkg), f, c);
    ExpandMember(NodesOf(FuncDecls(pkg)), fns, g, c);
  }
}
