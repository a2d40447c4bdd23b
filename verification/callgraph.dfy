/**
  The call-graph pass `tracePackageFunctionCalls` (parser/main.go): for each
  file of the package, for each function declaration of the file, report the
  declaration to the manager once, then report each top-level statement of
  its body, in body order, tagged with the declaration's name.

  What the manager does with these reports is not modelled: each report is
  one `TraceEvent` appended to an ordered log.
*/
module CallGraph {
  import opened Ast

  /** One report to the manager. */
  datatype TraceEvent =
    | TracedDeclaration(decl: FuncDecl)       // TraceFunctionDeclaration(fn)
    | TracedCall(stmt: Stmt, fnName: string)  // TraceFuncionCall(stmt, fn.Name.Name)

  /** The top-level statements of a declaration's body; none when it has no body. */
  function TopLevel(fn: FuncDecl): seq<Stmt>
  {
    match fn.body
    case Some(list) => list
    case None => []
  }

  function CallEvents(ss: seq<Stmt>, name: string): (t: seq<TraceEvent>)
    ensures |t| == |ss|
    ensures forall k :: 0 <= k < |ss| ==> t[k] == TracedCall(ss[k], name)
  {
    seq(|ss|, k requires 0 <= k < |ss| => TracedCall(ss[k], name))
  }

  /** Reference reports for one declaration: the declaration, then its top-level statements. */
  function FunctionTrace(fn: FuncDecl): seq<TraceEvent>
  {
    [TracedDeclaration(fn)] + CallEvents(TopLevel(fn), fn.name)
  }

  /** Reference reports for `fs`, one declaration after the other. */
  function TraceOf(fs: seq<FuncDecl>): seq<TraceEvent>
  {
    if fs == [] then [] else TraceOf(fs[..|fs| - 1]) + FunctionTrace(fs[|fs| - 1])
  }

  lemma TraceOfSnoc(fs: seq<FuncDecl>, f: FuncDecl)
    ensures TraceOf(fs + [f]) == TraceOf(fs) + FunctionTrace(f)
  {
    assert (fs + [f])[..|fs|] == fs;
  }

  lemma DeclStep(done: seq<FuncDecl>, ds: seq<Decl>, j: int)
    requires 0 <= j < |ds|
    ensures TraceOf(done + DeclFuncs(ds[..j + 1]))
         == TraceOf(done + DeclFuncs(ds[..j]))
            + (if ds[j].FuncD? then FunctionTrace(ds[j].fn) else [])
  {
    assert ds[..j + 1][..j] == ds[..j];
    if ds[j].FuncD? {
      assert done + DeclFuncs(ds[..j + 1]) == (done + DeclFuncs(ds[..j])) + [ds[j].fn];
      TraceOfSnoc(done + DeclFuncs(ds[..j]), ds[j].fn);
    } else {
      assert DeclFuncs(ds[..j + 1]) == DeclFuncs(ds[..j]);
    }
  }

  /**
    The reports for one declaration: `TraceFunctionDeclaration` once, then
    `TraceFuncionCall` for each top-level body statement in body order.
  */
  method TraceFunction(fn: FuncDecl) returns (reports: seq<TraceEvent>)
    ensures reports == FunctionTrace(fn)
  {
    reports := [TracedDeclaration(fn)];
    if fn.body.Some? {
      var list := fn.body.value;
      for k := 0 to |list|
        invariant reports == [TracedDeclaration(fn)] + CallEvents(list[..k], fn.name)
      {
        assert CallEvents(list[..k + 1], fn.name) == CallEvents(list[..k], fn.name) + [TracedCall(list[k], fn.name)];
        reports := reports + [TracedCall(list[k], fn.name)];
      }
      assert list[..|list|] == list;
    }
  }

  /**
    `tracePackageFunctionCalls`, with a declaration without a body reported
    and then skipped (the source dereferences the missing body; see
    `TraceAsWritten`).  The reports are exactly the reference reports of the
    package's function declarations in package order.
  */
  method TracePackageFunctionCalls(pkg: Package) returns (trace: seq<TraceEvent>)
    ensures trace == TraceOf(FuncDecls(pkg))
  {
    trace := [];
    for i := 0 to |pkg.files|
      invariant trace == TraceOf(FileFuncs(pkg.files[..i]))
    {
      var file := pkg.files[i];
      var done := FileFuncs(pkg.files[..i]);
      assert done + DeclFuncs(file.decls[..0]) == done;
      for j := 0 to |file.decls|
        invariant trace == TraceOf(done + DeclFuncs(file.decls[..j]))
      {
        DeclStep(done, file.decls, j);
        if file.decls[j].FuncD? {
          var reports := TraceFunction(file.decls[j].fn);
          trace := trace + reports;
        }
      }
      assert file.decls[..|file.decls|] == file.decls;
      assert pkg.files[..i + 1][..i] == pkg.files[..i];
    }
    assert pkg.files[..|pkg.files|] == pkg.files;
  }

  lemma FunctionTraceCall(fn: FuncDecl, s: Stmt, name: string)
    ensures TracedCall(s, name) in FunctionTrace(fn) <==> name == fn.name && s in TopLevel(fn)
  {
    var calls := CallEvents(TopLevel(fn), fn.name);
    assert FunctionTrace(fn)[1..] == calls;
    if s in TopLevel(fn) && name == fn.name {
      var k :| 0 <= k < |TopLevel(fn)| && TopLevel(fn)[k] == s;
      assert calls[k] == TracedCall(s, name);
    }
  }

  /**
    The pass is shallow: a statement is reported under a name exactly when
    it is a top-level body statement of a declaration with that name.  A
    statement nested inside another (an `if` body, a block) is never
    reported on its own unless it also stands at top level.
  */
  lemma {:induction false} TracedCallsAreTopLevel(fs: seq<FuncDecl>, s: Stmt, name: string)
    ensures TracedCall(s, name) in TraceOf(fs)
        <==> exists f :: f in fs && f.name == name && s in TopLevel(f)
  {
    if fs != [] {
      var init, last := fs[..|fs| - 1], fs[|fs| - 1];
      assert fs == init + [last];
      TracedCallsAreTopLevel(init, s, name);
      FunctionTraceCall(last, s, name);
      if TracedCall(s, name) in TraceOf(fs) {
        if TracedCall(s, name) in FunctionTrace(last) {
          assert last in fs;
        } else {
          var f :| f in init && f.name == name && s in TopLevel(f);
          assert f in fs;
        }
      }
    }
  }

  /** Each function declaration is reported, and nothing else is reported as one. */
  lemma {:induction false} DeclarationsTraced(fs: seq<FuncDecl>, f: FuncDecl)
    ensures TracedDeclaration(f) in TraceOf(fs) <==> f in fs
  {
    if fs != [] {
      var init, last := fs[..|fs| - 1], fs[|fs| - 1];
      assert fs == init + [last];
      DeclarationsTraced(init, f);
      assert TracedDeclaration(f) in FunctionTrace(last) <==> f == last;
    }
  }

  /** The source as written: the outcome of the pass, or the panic a missing body causes. */
  datatype Outcome =
    | Completed(reports: seq<TraceEvent>)
    | NilBodyPanic(reports: seq<TraceEvent>, culprit: FuncDecl)

  /**
    The pass exactly as the source writes it: after reporting a declaration
    it reads `fn.Body.List`, which dereferences a nil body when the
    declaration has none.  It completes, with the reference reports, exactly
    when every declaration has a body.
  */
  function TraceAsWritten(fs: seq<FuncDecl>): (r: Outcome)
    ensures r.Completed? <==> forall i :: 0 <= i < |fs| ==> fs[i].body.Some?
    ensures r.Completed? ==> r.reports == TraceOf(fs)
    ensures r.NilBodyPanic? ==> r.culprit in fs && r.culprit.body.None?
  {
    if fs == [] then Completed([])
    else
      var last := fs[|fs| - 1];
      match TraceAsWritten(fs[..|fs| - 1])
      case NilBodyPanic(t, f) => NilBodyPanic(t, f)
      case Completed(t) =>
        if last.body.None? then NilBodyPanic(t + [TracedDeclaration(last)], last)
        else Completed(t + FunctionTrace(last))
  }

  /**
    Where the pass as written stops: at the first declaration `k` without a
    body, after reporting every declaration before it in full and `k`
    itself.  What it reported by then is a prefix of the corrected pass's
    reports.
  */
  lemma {:induction false} PanicAtFirstBodyless(fs: seq<FuncDecl>) returns (k: nat)
    requires TraceAsWritten(fs).NilBodyPanic?
    ensures k < |fs| && fs[k] == TraceAsWritten(fs).culprit && fs[k].body.None?
    ensures forall i :: 0 <= i < k ==> fs[i].body.Some?
    ensures TraceAsWritten(fs).reports == TraceOf(fs[..k]) + [TracedDeclaration(fs[k])]
    ensures TraceAsWritten(fs).reports <= TraceOf(fs)
  {
    var init, last := fs[..|fs| - 1], fs[|fs| - 1];
    assert fs == init + [last];
    if TraceAsWritten(init).NilBodyPanic? {
      k := PanicAtFirstBodyless(init);
      assert init[..k] == fs[..k];
      assert TraceOf(fs) == TraceOf(init) + FunctionTrace(last);
    } else {
      k := |fs| - 1;
      assert fs[..k] == init;
      assert CallEvents(TopLevel(last), last.name) == [];
      assert TraceOf(fs) == TraceOf(init) + FunctionTrace(last);
    }
  }

  /**
    Input that shows the discrepancy: one declaration without a body.  The
    source panics after reporting it; the corrected pass reports it and
    moves on.
  */
  lemma BodylessDeclarationPanics()
    ensures var stub := FuncDecl("stub", [], None);
            TraceAsWritten([stub]) == NilBodyPanic([TracedDeclaration(stub)], stub)
            && TraceOf([stub]) == [TracedDeclaration(stub)]
  {
    var stub := FuncDecl("stub", [], None);
    assert [stub][..0] == [];
    assert CallEvents(TopLevel(stub), stub.name) == [];
  }
}
