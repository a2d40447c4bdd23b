/**
  The HTTP pattern classifiers: stateless predicates on one statement, call
  or function declaration that the instrumentation functions consult.

  - `IsNetHttpClientDefinition`: `x := &http.Client{...}` defines a client;
  - `IsNetHttpMethodCannotInstrument`: a statement calls one of the
    package-level shorthand functions `http.Get`, `http.Post`,
    `http.PostForm`, `http.Head`, which take no context and so cannot carry
    a trace;
  - `IsHttpHandler`: a declaration has the handler signature
    `(http.ResponseWriter, *http.Request)`;
  - `GetNetHttpMethod`: the name of the HTTP method a call invokes;
  - `GetNetHttpClientVariableName`: the client variable a call goes
    through, resolved only for the package's default client.
*/
module NetHttp {
  import opened Ast
  import opened PreOrder

  const HttpGet: string := "Get"
  const HttpPost: string := "Post"
  const HttpPostForm: string := "PostForm"
  const HttpHead: string := "Head"

  /** The package-level functions that send a request through the default client without a context. */
  const ShorthandVerbs: set<string> := {HttpGet, HttpPost, HttpPostForm, HttpHead}

  /** The package-level client variable of net/http. */
  const DefaultClientName: string := "DefaultClient"

  /** The client type name of net/http. */
  const ClientTypeName: string := "Client"

  /** `&http.Client{...}`, with or without field initialisers. */
  function ClientLiteral(fields: seq<Expr>): Expr
  {
    Unary(AddressOf, CompositeLit(Ident(ClientTypeName, NetHttpPath), fields))
  }

  /** `e` is `&http.Client{...}` for some field list. */
  predicate IsClientLiteral(e: Expr)
  {
    e.Unary? && e.operand.CompositeLit? && e == ClientLiteral(e.operand.elts)
  }

  // ---------------------------------------------------------------------
  // Client definition
  // ---------------------------------------------------------------------

  /**
    `isNetHttpClientDefinition`: a short variable declaration (`:=`, not
    `=`) of one variable whose one right-hand side takes the address of an
    `http.Client` composite literal.  The literal's fields do not matter.
  */
  function IsNetHttpClientDefinition(s: Stmt): (r: bool)
    requires s.AssignStmt?
    ensures r <==> s.tok == Define && |s.lhs| == 1 && |s.rhs| == 1
                   && IsClientLiteral(s.rhs[0])
  {
    if s.tok != Define || |s.lhs| != 1 || |s.rhs| != 1 then false
    else
      match s.rhs[0]
      case Unary(AddressOf, CompositeLit(Ident(name, path), _)) =>
        name == ClientTypeName && path == NetHttpPath
      case _ => false
  }

  /** Every `x := &http.Client{...}` is a definition, whatever its fields. */
  lemma DefineIsClientDefinition(x: Expr, fields: seq<Expr>)
    ensures IsNetHttpClientDefinition(AssignStmt([x], Define, [ClientLiteral(fields)]))
  {
  }

  /** Only `:=` counts: the same binding with any other token is not a definition. */
  lemma OnlyDefineCounts(lhs: seq<Expr>, tok: AssignTok, rhs: seq<Expr>)
    requires tok != Define
    ensures !IsNetHttpClientDefinition(AssignStmt(lhs, tok, rhs))
  {
  }

  /** Aliases are not tracked: binding a variable to another variable is never a definition. */
  lemma AliasIsNotDefinition(lhs: seq<Expr>, tok: AssignTok, name: string, path: string)
    ensures !IsNetHttpClientDefinition(AssignStmt(lhs, tok, [Ident(name, path)]))
  {
  }

  // ---------------------------------------------------------------------
  // Calls that cannot be instrumented
  // ---------------------------------------------------------------------

  /** The shorthand verb `e` calls, if `e` is a call of `http.Get`, `http.Post`, `http.PostForm` or `http.Head`. */
  function ShorthandVerb(e: Expr): (v: Option<string>)
    ensures v.Some? ==> v.value in ShorthandVerbs
    ensures v.Some? <==> e.Call? && e.fun.Ident? && e.fun.path == NetHttpPath && e.fun.name in ShorthandVerbs
  {
    match e
    case Call(Ident(name, path), _) =>
      if path == NetHttpPath && name in ShorthandVerbs then Some(name) else None
    case _ => None
  }

  /** A node that is a shorthand-verb call. */
  predicate IsShorthandNode(n: Node)
  {
    n.ExprNode? && ShorthandVerb(n.e).Some?
  }

  /** Reference search: the verb of the first shorthand call in a pre-order node list. */
  function FirstShorthand(ns: seq<Node>): Option<string>
  {
    if ns == [] then None
    else if IsShorthandNode(ns[0]) then ShorthandVerb(ns[0].e)
    else FirstShorthand(ns[1..])
  }

  lemma {:induction false} FirstShorthandAppend(a: seq<Node>, b: seq<Node>)
    ensures FirstShorthand(a + b) == if FirstShorthand(a).Some? then FirstShorthand(a) else FirstShorthand(b)
  {
    if a == [] {
      assert a + b == b;
    } else {
      assert (a + b)[0] == a[0];
      assert (a + b)[1..] == a[1..] + b;
      FirstShorthandAppend(a[1..], b);
    }
  }

  /** The first shorthand call is a shorthand call of the list, and none comes before it. */
  lemma {:induction false} FirstShorthandSpec(ns: seq<Node>)
    ensures FirstShorthand(ns).None? <==> forall i :: 0 <= i < |ns| ==> !IsShorthandNode(ns[i])
    ensures FirstShorthand(ns).Some? ==>
      exists i :: 0 <= i < |ns| && IsShorthandNode(ns[i]) && ShorthandVerb(ns[i].e) == FirstShorthand(ns)
        && forall k :: 0 <= k < i ==> !IsShorthandNode(ns[k])
  {
    if ns != [] {
      FirstShorthandSpec(ns[1..]);
      if !IsShorthandNode(ns[0]) && FirstShorthand(ns[1..]).Some? {
        var i :| 0 <= i < |ns[1..]| && IsShorthandNode(ns[1..][i])
          && ShorthandVerb(ns[1..][i].e) == FirstShorthand(ns[1..])
          && forall k :: 0 <= k < i ==> !IsShorthandNode(ns[1..][k]);
        assert IsShorthandNode(ns[i + 1]);
        assert forall k :: 0 <= k < i + 1 ==> !IsShorthandNode(ns[k]) by {
          forall k | 0 <= k < i + 1
            ensures !IsShorthandNode(ns[k])
          {
            if k > 0 {
              assert ns[k] == ns[1..][k - 1];
            }
          }
        }
      }
      if FirstShorthand(ns[1..]).None? && !IsShorthandNode(ns[0]) {
        forall i | 0 <= i < |ns|
          ensures !IsShorthandNode(ns[i])
        {
          if i > 0 {
            assert ns[i] == ns[1..][i - 1];
          }
        }
      }
    }
  }

  /** Depth-first search of an expression for a shorthand call, parent before children. */
  function SearchExpr(e: Expr): (v: Option<string>)
    ensures v == FirstShorthand(ExprNodes(e))
  {
    FirstShorthandAppend([ExprNode(e)], ExprNodes(e)[1..]);
    assert ExprNodes(e) == [ExprNode(e)] + ExprNodes(e)[1..];
    assert [ExprNode(e)][1..] == [];
    var here := ShorthandVerb(e);
    if here.Some? then here
    else
      match e
      case Ident(_, _) => None
      case BasicLit(_) => None
      case Selector(x, _, _) => SearchExpr(x)
      case Unary(_, x) => SearchExpr(x)
      case Binary(_, x, y) =>
        FirstShorthandAppend(ExprNodes(x), ExprNodes(y));
        First(SearchExpr(x), SearchExpr(y))
      case CompositeLit(t, elts) =>
        FirstShorthandAppend(ExprNodes(t), ExprListNodes(elts));
        First(SearchExpr(t), SearchExprs(elts))
      case KeyValue(k, v) =>
        FirstShorthandAppend(ExprNodes(k), ExprNodes(v));
        First(SearchExpr(k), SearchExpr(v))
      case Call(f, args) =>
        FirstShorthandAppend(ExprNodes(f), ExprListNodes(args));
        First(SearchExpr(f), SearchExprs(args))
  }

  function SearchExprs(es: seq<Expr>): (v: Option<string>)
    ensures v == FirstShorthand(ExprListNodes(es))
  {
    if es == [] then None
    else
      FirstShorthandAppend(ExprNodes(es[0]), ExprListNodes(es[1..]));
      First(SearchExpr(es[0]), SearchExprs(es[1..]))
  }

  function SearchStmt(s: Stmt): (v: Option<string>)
    ensures v == FirstShorthand(StmtNodes(s))
  {
    FirstShorthandAppend([StmtNode(s)], StmtNodes(s)[1..]);
    assert StmtNodes(s) == [StmtNode(s)] + StmtNodes(s)[1..];
    assert [StmtNode(s)][1..] == [];
    match s
    case ExprStmt(x) => SearchExpr(x)
    case AssignStmt(l, _, r) =>
      FirstShorthandAppend(ExprListNodes(l), ExprListNodes(r));
      First(SearchExprs(l), SearchExprs(r))
    case BlockStmt(list) => SearchStmts(list)
    case IfStmt(c, b, els) =>
      var elsNodes := match els case Some(e) => StmtNodes(e) case None => [];
      FirstShorthandAppend(ExprNodes(c), StmtNodes(b));
      FirstShorthandAppend(ExprNodes(c) + StmtNodes(b), elsNodes);
      First(First(SearchExpr(c), SearchStmt(b)), match els case Some(e) => SearchStmt(e) case None => None)
    case ReturnStmt(rs) => SearchExprs(rs)
    case DeclStmt(_) => None
  }

  function SearchStmts(ss: seq<Stmt>): (v: Option<string>)
    ensures v == FirstShorthand(StmtListNodes(ss))
  {
    if ss == [] then None
    else
      FirstShorthandAppend(StmtNodes(ss[0]), StmtListNodes(ss[1..]));
      First(SearchStmt(ss[0]), SearchStmts(ss[1..]))
  }

  function First(a: Option<string>, b: Option<string>): Option<string>
  {
    if a.Some? then a else b
  }

  /**
    `isNetHttpMethodCannotInstrument`: searches the whole statement, any
    depth, for a call of a shorthand verb.  Returns the verb and true when
    one is found (the first in source order), the empty name and false
    otherwise.
  */
  function IsNetHttpMethodCannotInstrument(s: Stmt): (r: (string, bool))
    ensures r.1 <==> exists i :: 0 <= i < |StmtNodes(s)| && IsShorthandNode(StmtNodes(s)[i])
    ensures r.1 ==> r.0 in ShorthandVerbs
    ensures r.1 ==> exists i :: 0 <= i < |StmtNodes(s)| && IsShorthandNode(StmtNodes(s)[i])
                      && ShorthandVerb(StmtNodes(s)[i].e) == Some(r.0)
                      && forall k :: 0 <= k < i ==> !IsShorthandNode(StmtNodes(s)[k])
    ensures !r.1 ==> r.0 == ""
  {
    FirstShorthandSpec(StmtNodes(s));
    var found := SearchStmt(s);
    assert found.Some? ==> FirstShorthand(StmtNodes(s)).Some?;
    if found.Some? then (found.value, true) else ("", false)
  }

  /**
    A method call `x.Sel(args)` is never itself a shorthand call, whatever
    the receiver's type: the statement is flagged exactly when its receiver
    or one of its arguments holds a shorthand call.
  */
  lemma SelectorCallFlaggedOnlyByParts(x: Expr, sel: string, t: TypeTag, args: seq<Expr>)
    ensures IsNetHttpMethodCannotInstrument(ExprStmt(Call(Selector(x, sel, t), args))).1
        <==> SearchExpr(x).Some? || SearchExprs(args).Some?
  {
    var call := Call(Selector(x, sel, t), args);
    assert SearchExpr(Selector(x, sel, t)) == SearchExpr(x);
    assert SearchExpr(call) == First(SearchExpr(x), SearchExprs(args));
    assert SearchStmt(ExprStmt(call)) == SearchExpr(call);
  }

  /**
    A method called on a client variable (`client.Get(url)`,
    `client.Do(req)`) with plain identifiers and literals as arguments is not
    flagged.
  */
  lemma ClientMethodIsNotShorthand(recv: string, sel: string, t: TypeTag, args: seq<Expr>)
    requires forall a :: a in args ==> a.Ident? || a.BasicLit?
    ensures IsNetHttpMethodCannotInstrument(ExprStmt(Call(Selector(Ident(recv, ""), sel, t), args))) == ("", false)
  {
    SelectorCallFlaggedOnlyByParts(Ident(recv, ""), sel, t, args);
    LiteralArgsHaveNoShorthand(args);
  }

  lemma {:induction false} LiteralArgsHaveNoShorthand(args: seq<Expr>)
    requires forall a :: a in args ==> a.Ident? || a.BasicLit?
    ensures SearchExprs(args) == None
  {
    if args != [] {
      assert args[0] in args;
      LiteralArgsHaveNoShorthand(args[1..]);
    }
  }

  /**
    The check finds a shorthand call wherever the statement holds it, for
    instance as the right-hand side of `_, err := http.Get(url)`.
  */
  lemma ShorthandInAssignment(lhs: seq<Expr>, tok: AssignTok, verb: string, args: seq<Expr>)
    requires verb in ShorthandVerbs
    ensures IsNetHttpMethodCannotInstrument(AssignStmt(lhs, tok, [Call(Ident(verb, NetHttpPath), args)]))
            == (if SearchExprs(lhs).Some? then (SearchExprs(lhs).value, true) else (verb, true))
  {
    var call := Call(Ident(verb, NetHttpPath), args);
    assert SearchExprs([call]) == Some(verb) by {
      assert [call][1..] == [];
    }
  }

  // ---------------------------------------------------------------------
  // Handlers
  // ---------------------------------------------------------------------

  /** The declared types of a parameter list, in order. */
  function ParamTypes(ps: seq<Param>): (ts: seq<TypeTag>)
    ensures |ts| == |ps|
    ensures forall i :: 0 <= i < |ps| ==> ts[i] == ps[i].typ
  {
    seq(|ps|, i requires 0 <= i < |ps| => ps[i].typ)
  }

  /**
    `isHttpHandler`: exactly two parameters, of type `http.ResponseWriter`
    and `*http.Request` in that order.  Names do not matter; any extra
    parameter disqualifies.
  */
  function IsHttpHandler(fn: FuncDecl): (r: bool)
    ensures r <==> ParamTypes(fn.params) == [ResponseWriter, RequestPtr]
  {
    var ps := fn.params;
    assert |ps| == 2 ==> ParamTypes(ps) == [ps[0].typ, ps[1].typ];
    |ps| == 2 && ps[0].typ == ResponseWriter && ps[1].typ == RequestPtr
  }

  /** An extra trailing parameter turns a handler into a non-handler. */
  lemma ExtraParamDisqualifies(fn: FuncDecl, extra: Param)
    requires IsHttpHandler(fn)
    ensures !IsHttpHandler(fn.(params := fn.params + [extra]))
  {
    assert |ParamTypes(fn.params + [extra])| == 3;
  }

  /** The order matters: `(*http.Request, http.ResponseWriter)` is not a handler. */
  lemma SwappedParamsAreNotHandler(fn: FuncDecl)
    requires IsHttpHandler(fn)
    ensures !IsHttpHandler(fn.(params := [fn.params[1], fn.params[0]]))
  {
    assert ParamTypes(fn.params)[0] == ResponseWriter;
  }

  // ---------------------------------------------------------------------
  // HTTP method and client variable of a call
  // ---------------------------------------------------------------------

  /**
    `GetNetHttpMethod`: for a call of a package-level shorthand verb, that
    verb; for a method called on a receiver of type `*http.Client` (the
    default client, a local variable, a struct field), the method's name;
    otherwise the empty name.
  */
  function GetNetHttpMethod(call: Expr): (m: string)
    requires call.Call?
    ensures call.fun.Ident? ==> (m != "" <==> ShorthandVerb(call).Some?)
    ensures ShorthandVerb(call).Some? ==> m == ShorthandVerb(call).value
    ensures call.fun.Selector? && call.fun.recv == ClientPtr ==> m == call.fun.sel
    ensures call.fun.Selector? && call.fun.recv != ClientPtr ==> m == ""
    ensures !call.fun.Ident? && !call.fun.Selector? ==> m == ""
  {
    match call.fun
    case Ident(name, path) =>
      if path == NetHttpPath && name in ShorthandVerbs then name else ""
    case Selector(_, sel, recv) =>
      if recv == ClientPtr then sel else ""
    case _ => ""
  }

  /**
    The two classifiers agree on package-level calls: a package function
    whose HTTP method `GetNetHttpMethod` names is exactly a call that
    `IsNetHttpMethodCannotInstrument` flags, with the same name.
  */
  lemma PackageMethodCannotBeInstrumented(call: Expr)
    requires call.Call? && call.fun.Ident?
    ensures GetNetHttpMethod(call) != ""
        <==> IsNetHttpMethodCannotInstrument(ExprStmt(call)) == (GetNetHttpMethod(call), true)
  {
    assert "" !in ShorthandVerbs;
  }

  /** The expression `http.DefaultClient`. */
  function DefaultClient(): Expr
  {
    Ident(DefaultClientName, NetHttpPath)
  }

  /**
    `GetNetHttpClientVariableName`: the name of the client variable a call
    goes through, resolved only when the receiver is `http.DefaultClient`.
    A package function, a local client variable and a struct field holding
    a client all give the empty name.
  */
  function GetNetHttpClientVariableName(call: Expr): (v: string)
    requires call.Call?
    ensures v == "" || v == DefaultClientName
    ensures v != "" <==> call.fun.Selector? && call.fun.x == DefaultClient()
  {
    match call.fun
    case Selector(Ident(name, path), _, _) =>
      if name == DefaultClientName && path == NetHttpPath then name else ""
    case _ => ""
  }

  /** A receiver that is a local variable is not resolved. */
  lemma LocalClientNotResolved(name: string, sel: string, t: TypeTag, args: seq<Expr>)
    ensures GetNetHttpClientVariableName(Call(Selector(Ident(name, ""), sel, t), args)) == ""
  {
  }

  /** A receiver reached through a field access is not resolved. */
  lemma FieldClientNotResolved(owner: Expr, field: string, ft: TypeTag, sel: string, t: TypeTag, args: seq<Expr>)
    ensures GetNetHttpClientVariableName(Call(Selector(Selector(owner, field, ft), sel, t), args)) == ""
  {
  }

  /**
    The classifiers agree: when the type checker types `http.DefaultClient`
    as `*http.Client`, a call whose client variable is resolved is also a
    call whose HTTP method is recognised, and a shorthand call never has a
    resolved client.
  */
  lemma ResolvedClientHasMethod(call: Expr)
    requires call.Call?
    requires call.fun.Selector? && call.fun.x == DefaultClient() ==> call.fun.recv == ClientPtr
    ensures GetNetHttpClientVariableName(call) != "" ==> GetNetHttpMethod(call) == call.fun.sel
    ensures ShorthandVerb(call).Some? ==> GetNetHttpClientVariableName(call) == ""
  {
  }
}
