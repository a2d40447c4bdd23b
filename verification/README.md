# go-easy-instrumentation core, modelled in Dafny

go-easy-instrumentation rewrites a Go package so that it reports to New Relic.
This project models two parts of it:

- **The HTTP pattern classifiers.** These are the stateless predicates that the instrumentation functions use to recognise net/http code:
  - a client definition (`client := &http.Client{...}`);
  - a call of a package-level shorthand verb (`http.Get`, `http.Post`, `http.PostForm`, `http.Head`), which takes no context and so cannot be given a trace;
  - an HTTP handler signature;
  - the HTTP method a call invokes;
  - the client variable a call goes through.

  The test tables in `parser/netHTTP_test.go` fix what these classifiers answer. Every row is proved as a lemma.
- **The drivers in `parser/main.go`:**
  - `instrumentPackage` walks each function declaration and, at every node, calls every instrumentation function in the order it was given. The callback is passed as the walk's "post" function, so a node is handled only after all of its children. The walk therefore meets each declaration's nodes in post-order, with the declaration itself last. The callback never aborts the walk, so nothing is skipped.
  - `tracePackageFunctionCalls` reports each function declaration once, then each top-level statement of its body, tagged with the function's name.
  - `InstrumentPackage` runs the stages in this order: build the manager, build the call graph, walk with the five instrumentation functions in a fixed order, write the diff exactly once, last.

Modules:

| file | module | contents |
|---|---|---|
| `ast.dfy` | `Ast` | Syntax tree in the decorated-tree style. Identifiers carry their resolved import path. Selectors and parameters carry an abstract type tag that stands in for the type checker. |
| `preorder.dfy` | `PreOrder` | The pre-order node list of every kind of node: the order the cannot-instrument search uses. Proves that it is the node followed by the pre-order lists of its children, and that it is closed under children. |
| `postorder.dfy` | `PostOrder` | The post-order node list of every kind of node: the order of the walk. Proves that it is the children's post-order lists followed by the node, and that it holds the same nodes as the pre-order list, each as often. |
| `traversal.dfy` | `Traversal` | The post-order walker, the `instrumentPackage` driver, and the reference event log `Expand`. |
| `callgraph.dfy` | `CallGraph` | The `tracePackageFunctionCalls` pass and its reference reports `TraceOf`. Also the pass as written, with its nil-body dereference (see Findings). |
| `nethttp.dfy` | `NetHttp` | The five classifiers and their general properties. |
| `nethttp_tests.dfy` | `NetHttpTests` | The test tables, row by row. |
| `pipeline.dfy` | `Pipeline` | The `InstrumentPackage` pipeline as one ordered log of stages, with the corrected call-graph pass and with the pass as written. |

The instrumentation functions, the manager's `Trace*` methods and the diff writer are opaque labels. Each call of one of them appends an event to a log. The contracts state what the logs contain and in which order.

## Model

| member | source | states |
|---|---|---|
| `NetHttp.IsNetHttpClientDefinition` | parser/netHTTP_test.go:41-121 | A statement defines a client exactly when all of these hold: it uses `:=`, it has one left-hand side and one right-hand side, and that right-hand side is `&http.Client{...}` with any fields. |
| `NetHttp.DefineIsClientDefinition` | parser/netHTTP_test.go:48-71 | `x := &http.Client{...}` is a definition whatever its field initialisers are (the rows define_new_http_client and define_complex_http_client). |
| `NetHttp.OnlyDefineCounts` | parser/netHTTP_test.go:72-82 | A binding with `=` or any other token that is not `:=` is never a definition (the row assign_http_client). |
| `NetHttp.AliasIsNotDefinition` | parser/netHTTP_test.go:83-94 | Binding a name to another variable is never a definition, so aliases are not tracked (the row reassign_http_client). |
| `NetHttpTests.ClientDefinitionTable` | parser/netHTTP_test.go:48-94 | The four rows of Test_isNetHttpClient give true, true, false, false. |
| `NetHttp.IsNetHttpMethodCannotInstrument` | parser/netHTTP_test.go:124-252 | A statement is flagged exactly when a shorthand-verb call appears anywhere in its pre-order node list. When it is flagged, the name returned is a shorthand verb and is the verb of the first such call. When it is not flagged, the name returned is empty. |
| `NetHttp.SelectorCallFlaggedOnlyByParts` | parser/netHTTP_test.go:181-212 | A method call `x.Sel(args)` is never itself a shorthand call, whatever the type of `x`. The statement is flagged exactly when the receiver or an argument holds a shorthand call. |
| `NetHttp.ClientMethodIsNotShorthand` | parser/netHTTP_test.go:181-212 | A method called on a client variable, such as `client.Get(url)` or `client.Do(req)`, is not flagged when its arguments are plain names or literals. With other arguments, `NetHttp.SelectorCallFlaggedOnlyByParts` gives the general rule: `client.Do(Wrap(http.Get(u)))` is flagged because of its argument. |
| `NetHttp.ShorthandInAssignment` | parser/netHTTP_test.go:213-225 | A shorthand call is found on the right-hand side of an assignment such as `_, err := http.Get(url)`. |
| `NetHttpTests.ShorthandRow` | parser/netHTTP_test.go:132-180 | A statement that consists of one shorthand-verb call is flagged with that verb. |
| `NetHttpTests.CannotInstrumentShorthandRows` | parser/netHTTP_test.go:132-180 | The rows http_get, http_post, http_post_form and http_head give the verb and true. |
| `NetHttpTests.CannotInstrumentClientGetRow` | parser/netHTTP_test.go:181-198 | The row http_client_get gives the empty name and false. |
| `NetHttpTests.CannotInstrumentClientDoRow` | parser/netHTTP_test.go:199-212 | The row http_client_do gives the empty name and false. |
| `NetHttpTests.CannotInstrumentComplexLineRow` | parser/netHTTP_test.go:213-225 | The row http_get_complex_line gives "Get" and true. |
| `NetHttp.IsHttpHandler` | parser/netHTTP_test.go:254-313 | A declaration is a handler exactly when its parameter types, in order, are `http.ResponseWriter` then `*http.Request`. |
| `NetHttp.ExtraParamDisqualifies` | parser/netHTTP_test.go:280-289 | Adding a parameter to a handler makes it a non-handler (the row overloaded_handler). |
| `NetHttp.SwappedParamsAreNotHandler` | parser/netHTTP_test.go:270-279 | Swapping the two parameters of a handler makes it a non-handler, because the order is part of the signature. |
| `NetHttpTests.HttpHandlerTable` | parser/netHTTP_test.go:260-289 | The three rows of Test_isHttpHandler give false, true, false. |
| `NetHttp.GetNetHttpMethod` | parser/netHTTP_test.go:315-435 | The method of a call is one of three things. For a package function it is the verb exactly when the function is a shorthand verb, and empty otherwise. For a method on a receiver typed `*http.Client` it is that method's name, whether the receiver is the default client, a local variable or a field. For anything else it is empty. |
| `NetHttpTests.NetHttpMethodTable` | parser/netHTTP_test.go:322-400 | The six rows of Test_getNetHttpMethod give Get, Post, Get, Do, Do, Do. |
| `NetHttp.PackageMethodCannotBeInstrumented` | parser/netHTTP_test.go:132-180 | For a package-function call, `GetNetHttpMethod` names a method exactly when the expression statement made of that call alone is flagged with that same name. This does not extend to a call nested in another: `fmt.Println(http.Get(u))` is flagged with "Get" while `GetNetHttpMethod` of the outer call is empty. |
| `NetHttp.GetNetHttpClientVariableName` | parser/netHTTP_test.go:437-535 | The client name is either empty or `DefaultClient`. It is non-empty exactly when the receiver of the call is `http.DefaultClient`. |
| `NetHttp.LocalClientNotResolved` | parser/netHTTP_test.go:467-479 | A client held in a local variable gives the empty name. |
| `NetHttp.FieldClientNotResolved` | parser/netHTTP_test.go:480-500 | A client reached through a field access gives the empty name. |
| `NetHttp.ResolvedClientHasMethod` | parser/netHTTP_test.go:455-466 | A call whose client is resolved also has its method recognised, and that method is the selector's name. A shorthand call never has a resolved client. |
| `NetHttpTests.ClientVariableNameTable` | parser/netHTTP_test.go:444-500 | The four rows of Test_GetNetHttpClientVariableName give "", "DefaultClient", "", "". |
| `PostOrder.PostOrderUnfold` | parser/main.go:25 | With the callback as the walk's post function, a node's list is its children's post-order lists, left to right, followed by the node itself. |
| `PostOrder.SameNodes` | parser/main.go:25 | The post-order list of a node holds exactly the nodes of its pre-order list, each as often. Only the order differs. |
| `PostOrder.PostChildrenAreListed` | parser/main.go:25-32 | The post-order list of a node contains every child of every node in that list. |
| `Traversal.ApplyFuncComplete` | parser/main.go:25-32 | Walking a declaration calls the functions at exactly its post-order node list, with each node expanded by the whole function list. Every node comes after its children, and the declaration comes last. |
| `Traversal.InstrumentPackage` | parser/main.go:21-36 | The log covers files in package order and declarations in file order. Only function declarations are walked. The log is the package's function nodes, each declaration in post-order, each node expanded by the function list. |
| `Traversal.ExpandIndex` | parser/main.go:26-29 | Call number `i * n + j` of the log is function `j` applied at node `i`. So each node receives every function once, in the given order, before the walk moves on. |
| `Traversal.ExpandMember` | parser/main.go:26-29 | A call is in the log exactly when its function was passed and its node was visited. |
| `Ast.FileFuncsComplete` | parser/main.go:21-23 | Every function declaration of every file is in the package's list of function declarations, so the drivers' loops over files and declarations miss none. |
| `Traversal.OnlyFunctionsVisited` | parser/main.go:22-24 | Every visited node belongs to one of the package's function declarations. |
| `Traversal.EveryFunctionNodeVisited` | parser/main.go:22-25 | Every node of every function declaration is visited. |
| `Traversal.NoSubtreePruned` | parser/main.go:25-32 | For every node reached, every instrumentation function is also called at each of its children. |
| `CallGraph.TraceFunction` | parser/main.go:43-47 | One declaration is reported once, then each top-level statement of its body is reported in body order, tagged with the declaration's name. |
| `CallGraph.TracePackageFunctionCalls` | parser/main.go:39-51 | The reports are the per-declaration reports of the package's function declarations, in package order. |
| `CallGraph.TracedCallsAreTopLevel` | parser/main.go:45-47 | A statement is reported under a name exactly when it is a top-level body statement of a declaration with that name. The pass is shallow. |
| `CallGraph.DeclarationsTraced` | parser/main.go:43-44 | A declaration is reported exactly when it is one of the package's function declarations. |
| `CallGraph.TraceAsWritten` | parser/main.go:43-47 | The pass as written finishes exactly when every declaration has a body, and then gives the reference reports. Otherwise it stops at a declaration without a body. |
| `CallGraph.PanicAtFirstBodyless` | parser/main.go:41-47 | When the pass as written panics, it panics at the first declaration `k` without a body. By then it has reported every earlier declaration in full, and then `k` itself. Those reports are a prefix of the corrected pass's reports. |
| `CallGraph.BodylessDeclarationPanics` | parser/main.go:45 | With one bodyless declaration, the pass as written panics after reporting it. The corrected pass reports the declaration and nothing more. |
| `Pipeline.InstrumentPackage` | parser/main.go:53-66 | With the corrected call-graph pass, the order of the stages is: the manager is built once and first; every call-graph report comes before every instrumentation call; the diff is written once and last. In between come the package's call-graph reports, then the walk's calls with the five functions in the fixed order. |
| `Pipeline.InstrumentPackageAsWritten` | parser/main.go:53-66 | With the call-graph pass as written, the run panics exactly when some function declaration has no body. A panicked run is the manager followed by a prefix of the call-graph reports. It makes no instrumentation call and never writes the diff. Otherwise the run is the full stage-by-stage log. |
| `Pipeline.Layout` | parser/main.go:53-66 | In a log laid out stage by stage, each kind of step occupies exactly its own range of positions. |
| `Pipeline.FixedOrderAtEveryNode` | parser/main.go:63 | At the node with index `i` of the visited list (each declaration in post-order), the five functions are called consecutively, in this order: InjectAgent, InstrumentHandleFunc, InstrumentHandler, InstrumentHttpClient, CannotInstrumentHttpMethod. |

## Left out

- The implementation file of the classifiers (`parser/netHTTP.go`) is not part of this model. The classifiers' behaviour is pinned by the test rows. Where the rows leave a choice open, the model makes these choices:
  - the rows check package functions only for the four shorthand verbs, so a package function counts only as one of those verbs;
  - the rows check method calls only on `*http.Client` receivers, so a selector counts when its receiver is typed `*http.Client`;
  - no row holds two shorthand calls in one statement, so the model searches the whole statement and reports the first match in pre-order.
  - every row that defines a client binds one name to one value, so a client definition must have exactly one left-hand side and one right-hand side (`a, b := &http.Client{}, x` is not a definition);
  - the handler rows test a missing and an extra parameter but never the two parameters swapped, so the model makes the order part of the signature (`func f(r *http.Request, w http.ResponseWriter)` is not a handler, see `NetHttp.SwappedParamsAreNotHandler`).
- `NetHttp.GetNetHttpClientVariableName`: resolves only `http.DefaultClient`. A client held in a local variable gives the empty name, as the http_client_do row (parser/netHTTP_test.go:467-478) requires. Resolving a locally defined client to its variable name is not modelled.
- Alias and field-path client tracking: neither is resolved, because the classifiers themselves decline to track them. The row reassign_http_client (parser/netHTTP_test.go:83-94) wants no definition for `client2 := client`, and the row complex_http_client_do (parser/netHTTP_test.go:480-500) wants the empty client name for `myClient.client.Do(req)`.
- `CallGraph.TracePackageFunctionCalls`: `parser/main.go:45-46` hands each top-level statement to the manager whole. The model records that statement. Whatever the manager then looks for inside the statement (its call expressions) is not modelled.
- `Pipeline.InstrumentPackage`: runs the corrected call-graph pass, so "the diff is written once and last" is stated for a package whose declarations all have bodies, or for the corrected source. The source as written panics before the walk when a declaration has no body; `Pipeline.InstrumentPackageAsWritten` models that run.
- The walk also calls its post function at empty child slots, with no node: a missing body, a missing receiver, a missing `else`, and the like. The model logs calls only at nodes that are present. What the five instrumentation functions do when handed no node is not modelled.
- Package loading, type checking and import resolution are external tools. Resolved types appear as type tags on selectors and parameters. Resolved packages appear as the import path on identifiers.
- `main`, `createDiffFile`, `WriteDiff` and diff rendering are file-system I/O. The diff writer appears as a single `WroteDiff` step.
- The walk changes the tree through its cursor. The model is read-only and records an event per call. The changes belong to the instrumentation functions, whose bodies are not modelled.
- The bodies of `InjectAgent`, `InstrumentHandleFunc`, `InstrumentHandler`, `InstrumentHttpClient`, `CannotInstrumentHttpMethod`, `TraceFunctionDeclaration` and `TraceFuncionCall` are not part of this model. They are opaque labels.
- The `newRelicTxnVariableName` constant is used only by the instrumentation functions.
- The syntax tree is coarser than the decorated tree:
  - identifier children of selectors, declarations and parameters are folded into their parent;
  - function types and field lists are not separate nodes;
  - grouped parameters (`a, b int`) are written one per parameter;
  - the optional init statement of an `if` is not modelled;
  - statement kinds beyond expression, assignment, block, `if`, `return` and declaration are not modelled.
- A local declaration statement (`DeclStmt`) is a leaf that keeps only its names. Its type and initialiser expressions are dropped. So `var resp, err = http.Get(u)` cannot be written, although the walk visits that call and a search of the statement would flag it.
- Function literals (closures) are not modelled, so the walk into a closure's body, for instance a handler passed to `http.HandleFunc`, is not modelled either.
- Expression kinds beyond identifier, literal, selector, unary, binary, composite literal, key-value and call are not modelled: index, slice, star, parenthesised, type-assertion and ellipsis expressions, and type expressions (array, map, struct, func, chan, interface).
- A function declaration has no result list and no type parameters, so `func f() error` cannot be written. The walk visits the result and type-parameter nodes between the parameters and the body, and the five functions run at each of them; those calls are not modelled.
- Nodes are values, not pointers. Two equal subtrees cannot be told apart, so the membership lemmas (`Traversal.ExpandMember`, `Traversal.NoSubtreePruned`, `Traversal.EveryFunctionNodeVisited`, `CallGraph.DeclarationsTraced`) speak of equal subtrees rather than of node identity. The positional lemmas (`Traversal.ExpandIndex`, `Traversal.ApplyFuncComplete`, `Pipeline.FixedOrderAtEveryNode`) are unaffected.
- A function declaration has no receiver field, so methods are modelled as plain functions and the walk into a receiver is not modelled.
- The demo application is an input to the tool, not part of it.

## Findings

| source | as written | input that shows it | evidently intended | confidence | as-written member | corrected member |
|---|---|---|---|---|---|---|
| parser/main.go:45 | After reporting a function declaration, the pass ranges over `fn.Body.List`, which dereferences a nil `Body`. | A package with a function declaration without a body, e.g. an assembly-backed `func stub()`. | Report the declaration and skip its missing body. | not executed | `CallGraph.TraceAsWritten` | `CallGraph.TracePackageFunctionCalls` |

`CallGraph.BodylessDeclarationPanics` shows the discrepancy on `func stub()`. `CallGraph.PanicAtFirstBodyless` shows where the pass as written stops. `Pipeline.InstrumentPackageAsWritten` shows that the run then never writes its diff.
