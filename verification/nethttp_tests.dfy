/**
  The classifier test tables of parser/netHTTP_test.go, row by row.

  Each test writes a one-file program `package main; import "net/http";
  func ...`, loads it, takes the second top-level declaration (the first is
  the import), picks one statement of its body by index, and checks the
  classifier's answer.  Here each program is written as the syntax tree the
  loader would produce, the same declaration and statement are picked, and
  the expected answers are proved.
*/
module NetHttpTests {
  import opened Ast
  import opened NetHttp

  /** A test program: the `net/http` import, then one function declaration. */
  function Program(fn: FuncDecl): File
  {
    File("main.go", [GenD(Import, [NetHttpPath]), FuncD(fn)])
  }

  function Main(body: seq<Stmt>): FuncDecl
  {
    FuncDecl("main", [], Some(body))
  }

  /** The statement the Go test picks: body statement `lineNum` of the second declaration. */
  function Line(f: File, lineNum: nat): Stmt
    requires |f.decls| > 1 && f.decls[1].FuncD? && f.decls[1].fn.body.Some?
    requires lineNum < |f.decls[1].fn.body.value|
  {
    f.decls[1].fn.body.value[lineNum]
  }

  /**
    An identifier that resolves to no import.  The test programs import only
    net/http, so `time.Second` and `io.WriteString` stay unresolved
    selectors on such an identifier.
  */
  function Local(name: string): Expr
  {
    Ident(name, "")
  }

  function Url(): Expr
  {
    BasicLit("\"http://example.com\"")
  }

  /** `http.<name>(args)` */
  function HttpCall(name: string, args: seq<Expr>): Expr
  {
    Call(Ident(name, NetHttpPath), args)
  }

  /** `req, _ := http.NewRequest("GET", "http://example.com", nil)` */
  function NewRequest(): Stmt
  {
    AssignStmt([Local("req"), Local("_")], Define,
               [HttpCall("NewRequest", [BasicLit("\"GET\""), Url(), Local("nil")])])
  }

  /** `client := &http.Client{}` */
  function DefineClient(): Stmt
  {
    AssignStmt([Local("client")], Define, [ClientLiteral([])])
  }

  /** `<recv>.Do(req)` on a receiver of type `*http.Client` */
  function DoCall(recv: Expr): Stmt
  {
    ExprStmt(Call(Selector(recv, "Do", ClientPtr), [Local("req")]))
  }

  /** `myClient.client`, a struct field holding a client */
  function ClientField(): Expr
  {
    Selector(Local("myClient"), "client", OtherType("clientInfo"))
  }

  /** `type clientInfo struct {...}` and `myClient := clientInfo{client: &http.Client{}, name: "myClient"}` */
  function ClientInfoPrologue(): seq<Stmt>
  {
    [ DeclStmt(["clientInfo"]),
      AssignStmt([Local("myClient")], Define,
                 [CompositeLit(Local("clientInfo"),
                               [KeyValue(Local("client"), ClientLiteral([])),
                                KeyValue(Local("name"), BasicLit("\"myClient\""))])]) ]
  }

  /** Test_isNetHttpClient: define, define with fields, plain assignment, alias. */
  lemma ClientDefinitionTable()
    // define_new_http_client
    ensures IsNetHttpClientDefinition(Line(Program(Main([DefineClient()])), 0))
    // define_complex_http_client
    ensures IsNetHttpClientDefinition(Line(Program(Main(
              [AssignStmt([Local("client")], Define,
                          [ClientLiteral([KeyValue(Local("Timeout"), Selector(Local("time"), "Second", OtherType("invalid")))])])])), 0))
    // assign_http_client
    ensures !IsNetHttpClientDefinition(Line(Program(Main(
              [AssignStmt([Local("client")], Assign, [ClientLiteral([])])])), 0))
    // reassign_http_client
    ensures !IsNetHttpClientDefinition(Line(Program(Main(
              [DefineClient(), AssignStmt([Local("client2")], Define, [Local("client")])])), 1))
  {
  }

  /** A shorthand verb called as a statement of its own: `http.<verb>("http://example.com")`. */
  function ShorthandProgram(verb: string): File
  {
    Program(Main([ExprStmt(HttpCall(verb, [Url()]))]))
  }

  lemma ShorthandRow(verb: string)
    requires verb in ShorthandVerbs
    ensures IsNetHttpMethodCannotInstrument(Line(ShorthandProgram(verb), 0)) == (verb, true)
  {
    var call := HttpCall(verb, [Url()]);
    assert SearchExpr(call) == Some(verb);
  }

  /** Test_isNetHttpMethodCannotInstrument, rows http_get, http_post, http_post_form, http_head. */
  lemma CannotInstrumentShorthandRows()
    ensures IsNetHttpMethodCannotInstrument(Line(ShorthandProgram("Get"), 0)) == ("Get", true)
    ensures IsNetHttpMethodCannotInstrument(Line(ShorthandProgram("Post"), 0)) == ("Post", true)
    ensures IsNetHttpMethodCannotInstrument(Line(ShorthandProgram("PostForm"), 0)) == ("PostForm", true)
    ensures IsNetHttpMethodCannotInstrument(Line(ShorthandProgram("Head"), 0)) == ("Head", true)
  {
    ShorthandRow("Get");
    ShorthandRow("Post");
    ShorthandRow("PostForm");
    ShorthandRow("Head");
  }

  /** Test_isNetHttpMethodCannotInstrument, row http_client_get: `client.Get(...)` is not flagged. */
  lemma CannotInstrumentClientGetRow()
    ensures IsNetHttpMethodCannotInstrument(Line(Program(Main(
              [ AssignStmt([Local("tr")], Define,
                  [Unary(AddressOf, CompositeLit(Ident("Transport", NetHttpPath),
                     [ KeyValue(Local("MaxIdleConns"), BasicLit("10")),
                       KeyValue(Local("IdleConnTimeout"), Binary("*", BasicLit("30"), Selector(Local("time"), "Second", OtherType("invalid")))),
                       KeyValue(Local("DisableCompression"), Local("true")) ]))]),
                AssignStmt([Local("client")], Define, [ClientLiteral([KeyValue(Local("Transport"), Local("tr"))])]),
                ExprStmt(Call(Selector(Local("client"), "Get", ClientPtr), [BasicLit("\"https://example.com\"")])) ])), 2))
            == ("", false)
  {
    ClientMethodIsNotShorthand("client", "Get", ClientPtr, [BasicLit("\"https://example.com\"")]);
  }

  /** Test_isNetHttpMethodCannotInstrument, row http_client_do: `client.Do(req)` is not flagged. */
  lemma CannotInstrumentClientDoRow()
    ensures IsNetHttpMethodCannotInstrument(Line(Program(Main(
              [DefineClient(), NewRequest(), DoCall(Local("client"))])), 2))
            == ("", false)
  {
    ClientMethodIsNotShorthand("client", "Do", ClientPtr, [Local("req")]);
  }

  /** Test_isNetHttpMethodCannotInstrument, row http_get_complex_line: the call inside `_, err := http.Get(...)`. */
  lemma CannotInstrumentComplexLineRow()
    ensures IsNetHttpMethodCannotInstrument(Line(Program(Main(
              [ AssignStmt([Local("_"), Local("err")], Define, [HttpCall("Get", [Url()])]),
                IfStmt(Binary("!=", Local("err"), Local("nil")),
                       BlockStmt([ExprStmt(Call(Local("panic"), [Local("err")]))]), None) ])), 0))
            == ("Get", true)
  {
    var lhs := [Local("_"), Local("err")];
    LiteralArgsHaveNoShorthand(lhs);
    ShorthandInAssignment(lhs, Define, "Get", [Url()]);
  }

  /** Test_isHttpHandler: no parameters, the handler signature, one parameter too many. */
  lemma HttpHandlerTable()
    // http_get
    ensures !IsHttpHandler(Program(Main([ExprStmt(HttpCall("Get", [Url()]))])).decls[1].fn)
    // valid_handler
    ensures IsHttpHandler(Program(FuncDecl("index",
              [Param("w", ResponseWriter), Param("r", RequestPtr)],
              Some([ExprStmt(Call(Selector(Local("io"), "WriteString", OtherType("invalid")), [Local("w"), BasicLit("\"hello world\"")]))])))
            .decls[1].fn)
    // overloaded_handler
    ensures !IsHttpHandler(Program(FuncDecl("index",
              [Param("w", ResponseWriter), Param("r", RequestPtr), Param("x", OtherType("string"))],
              Some([ExprStmt(Call(Selector(Local("io"), "WriteString", OtherType("invalid")), [Local("w"), Local("x")]))])))
            .decls[1].fn)
  {
  }

  /** Test_getNetHttpMethod: package shorthand calls, the default client, a local client, a field client. */
  lemma NetHttpMethodTable()
    // http_get, http_post, http_get
    ensures GetNetHttpMethod(Line(Program(Main([ExprStmt(HttpCall("Get", [Url()]))])), 0).expr) == "Get"
    ensures GetNetHttpMethod(Line(Program(Main([ExprStmt(HttpCall("Post", [Url()]))])), 0).expr) == "Post"
    // http_do
    ensures GetNetHttpMethod(Line(Program(Main(
              [NewRequest(), DoCall(Ident("DefaultClient", NetHttpPath))])), 1).expr) == "Do"
    // http_client_do
    ensures GetNetHttpMethod(Line(Program(Main(
              [DefineClient(), NewRequest(), DoCall(Local("client"))])), 2).expr) == "Do"
    // complex_http_client_do
    ensures GetNetHttpMethod(Line(Program(Main(
              ClientInfoPrologue() + [NewRequest(), DoCall(ClientField())])), 3).expr) == "Do"
  {
  }

  /** Test_GetNetHttpClientVariableName: only the default client is resolved. */
  lemma ClientVariableNameTable()
    // no client
    ensures GetNetHttpClientVariableName(Line(Program(Main([ExprStmt(HttpCall("Get", [Url()]))])), 0).expr) == ""
    // http_do
    ensures GetNetHttpClientVariableName(Line(Program(Main(
              [NewRequest(), DoCall(Ident("DefaultClient", NetHttpPath))])), 1).expr) == "DefaultClient"
    // http_client_do
    ensures GetNetHttpClientVariableName(Line(Program(Main(
              [DefineClient(), NewRequest(), DoCall(Local("client"))])), 2).expr) == ""
    // complex_http_client_do
    ensures GetNetHttpClientVariableName(Line(Program(Main(
              ClientInfoPrologue() + [NewRequest(), DoCall(ClientField())])), 3).expr) == ""
  {
  }
}
