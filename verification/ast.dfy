/**
  A small syntax tree for the Go programs the instrumentation rewriter reads.

  It keeps a subset of Go's node kinds: those the classifiers' test programs
  are written in, and enough nesting to show the order of the walk.  Two pieces of information that the package loader and type
  checker provide are folded into the tree:
  - a package-qualified identifier such as `http.Get` is one `Ident` whose
    `path` is the import path the resolver attached ("net/http"); a local
    name has the empty path;
  - a selector `X.Sel` and a parameter carry an abstract
    `TypeTag` standing for the static type the type checker resolved.
*/
module Ast {

  datatype Option<+T> = None | Some(value: T)

  /** Import path of Go's HTTP package. */
  const NetHttpPath: string := "net/http"

  /** Resolved static types the classifiers distinguish. */
  datatype TypeTag =
    | ClientPtr                // *net/http.Client
    | ResponseWriter           // net/http.ResponseWriter
    | RequestPtr               // *net/http.Request
    | OtherType(name: string)  // any other type

  datatype UnaryOp = AddressOf | Negate | Not | Receive

  /** Token of an assignment statement: `:=`, `=` or a compound `op=`. */
  datatype AssignTok = Define | Assign | OpAssign(op: string)

  datatype Expr =
    | Ident(name: string, path: string)
    | BasicLit(lit: string)
    | Selector(x: Expr, sel: string, recv: TypeTag)  // recv: type of x
    | Unary(op: UnaryOp, operand: Expr)
    | Binary(bop: string, left: Expr, right: Expr)
    | CompositeLit(typ: Expr, elts: seq<Expr>)
    | KeyValue(key: Expr, value: Expr)
    | Call(fun: Expr, args: seq<Expr>)

  datatype Stmt =
    | ExprStmt(expr: Expr)
    | AssignStmt(lhs: seq<Expr>, tok: AssignTok, rhs: seq<Expr>)
    | BlockStmt(list: seq<Stmt>)
    | IfStmt(cond: Expr, body: Stmt, els: Option<Stmt>)
    | ReturnStmt(results: seq<Expr>)
    | DeclStmt(names: seq<string>)  // a local type, var or const declaration, kept opaque

  datatype Param = Param(name: string, typ: TypeTag)

  /**
    A function declaration.  `body` is `None` for a declaration without a
    body, whose implementation lies outside Go (an assembly stub, say).
  */
  datatype FuncDecl = FuncDecl(name: string, params: seq<Param>, body: Option<seq<Stmt>>)

  datatype GenTok = Import | Const | Type | Var

  /** A top-level declaration: a function, or a general (import, const, type, var) one. */
  datatype Decl = FuncD(fn: FuncDecl) | GenD(gen: GenTok, specs: seq<string>)

  datatype File = File(name: string, decls: seq<Decl>)

  /** A loaded package: its files in the order the loader lists them. */
  datatype Package = Package(files: seq<File>)

  /** Any node a syntax-tree walk can stop at. */
  datatype Node =
    | FuncNode(decl: FuncDecl)
    | ParamNode(param: Param)
    | StmtNode(stmt: Stmt)
    | ExprNode(e: Expr)

  /** The function declarations among `ds`, in declaration order. */
  function DeclFuncs(ds: seq<Decl>): (fs: seq<FuncDecl>)
    ensures |fs| <= |ds|
    ensures forall f :: f in fs ==> FuncD(f) in ds
    ensures forall i :: 0 <= i < |ds| && ds[i].FuncD? ==> ds[i].fn in fs
  {
    if ds == [] then []
    else
      var last := ds[|ds| - 1];
      DeclFuncs(ds[..|ds| - 1]) + (if last.FuncD? then [last.fn] else [])
  }

  /** The function declarations of `files`, file by file, each in declaration order. */
  function FileFuncs(files: seq<File>): (fs: seq<FuncDecl>)
    ensures forall f :: f in fs ==> exists i :: 0 <= i < |files| && FuncD(f) in files[i].decls
  {
    if files == [] then []
    else FileFuncs(files[..|files| - 1]) + DeclFuncs(files[|files| - 1].decls)
  }

  /** Conversely, every function declaration of every file is listed. */
  lemma {:induction false} FileFuncsComplete(files: seq<File>, i: nat, f: FuncDecl)
    requires i < |files| && FuncD(f) in files[i].decls
    ensures f in FileFuncs(files)
  {
    var k :| 0 <= k < |files[i].decls| && files[i].decls[k] == FuncD(f);
    if i < |files| - 1 {
      FileFuncsComplete(files[..|files| - 1], i, f);
    } else {
      assert f in DeclFuncs(files[i].decls);
    }
  }

  /** Every function declaration of the package, in package order. */
  function FuncDecls(pkg: Package): seq<FuncDecl>
  {
    FileFuncs(pkg.files)
  }
}
