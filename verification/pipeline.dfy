/**
  The per-package pipeline `InstrumentPackage` (parser/main.go): build the
  instrumentation manager, build the call graph, walk the package with the
  five instrumentation functions in a fixed order, and write the diff once.

  Each stage is one kind of `Step` in a single ordered log.  The manager is
  the record of what it was built from; the instrumentation functions and
  the diff writer are opaque labels (their bodies are not modelled).
*/
module Pipeline {
  import opened Ast
  import Traversal
  import CallGraph

  /** The instrumentation functions the pipeline passes to the walk. */
  datatype InstrumentationFunc =
    | InjectAgent
    | InstrumentHandleFunc
    | InstrumentHandler
    | InstrumentHttpClient
    | CannotInstrumentHttpMethod

  /** The order the pipeline passes them in. */
  const InstrumentationOrder: seq<InstrumentationFunc> :=
    [InjectAgent, InstrumentHandleFunc, InstrumentHandler, InstrumentHttpClient, CannotInstrumentHttpMethod]

  /** What `NewInstrumentationManager` is given. */
  datatype Manager = Manager(pkg: Package, appName: string, agentVariableName: string, diffFile: string)

  /** One stage or one call made while instrumenting a package. */
  datatype Step =
    | NewManager(manager: Manager)
    | Traced(report: CallGraph.TraceEvent)
    | Instrumented(call: Traversal.Event<InstrumentationFunc>)
    | WroteDiff

  function AsReports(ts: seq<CallGraph.TraceEvent>): (r: seq<Step>)
    ensures |r| == |ts|
    ensures forall k :: 0 <= k < |ts| ==> r[k] == Traced(ts[k])
  {
    seq(|ts|, k requires 0 <= k < |ts| => Traced(ts[k]))
  }

  function AsCalls(es: seq<Traversal.Event<InstrumentationFunc>>): (r: seq<Step>)
    ensures |r| == |es|
    ensures forall k :: 0 <= k < |es| ==> r[k] == Instrumented(es[k])
  {
    seq(|es|, k requires 0 <= k < |es| => Instrumented(es[k]))
  }

  /** The call-graph reports the pipeline makes for `pkg`. */
  function Reports(pkg: Package): seq<CallGraph.TraceEvent>
  {
    CallGraph.TraceOf(FuncDecls(pkg))
  }

  /** The nodes the walk visits in `pkg`, each declaration in post-order. */
  function Visited(pkg: Package): seq<Node>
  {
    Traversal.NodesOf(FuncDecls(pkg))
  }

  /**
    `InstrumentPackage`: the manager is built first and only once; every
    call-graph report precedes every instrumentation call; the diff is
    written exactly once, last.  Between them sit the call-graph reports of
    the package and the walk's calls with the fixed function order.
  */
  method InstrumentPackage(pkg: Package, appName: string, agentVariableName: string, diffFile: string)
    returns (steps: seq<Step>)
    ensures |steps| == 2 + |Reports(pkg)| + |Traversal.Expand(Visited(pkg), InstrumentationOrder)|
    ensures steps[0] == NewManager(Manager(pkg, appName, agentVariableName, diffFile))
    ensures forall i :: 0 < i < |steps| ==> !steps[i].NewManager?
    ensures steps[|steps| - 1] == WroteDiff
    ensures forall i :: 0 <= i < |steps| - 1 ==> !steps[i].WroteDiff?
    ensures forall i, j :: 0 <= i < j < |steps| && steps[i].Instrumented? ==> !steps[j].Traced?
    ensures steps[1 .. 1 + |Reports(pkg)|] == AsReports(Reports(pkg))
    ensures steps[1 + |Reports(pkg)| .. |steps| - 1]
         == AsCalls(Traversal.Expand(Visited(pkg), InstrumentationOrder))
  {
    var manager := Manager(pkg, appName, agentVariableName, diffFile);
    var trace := CallGraph.TracePackageFunctionCalls(pkg);
    var calls := Traversal.InstrumentPackage(pkg, InstrumentationOrder);
    steps := [NewManager(manager)] + AsReports(trace) + AsCalls(calls) + [WroteDiff];
    Layout(steps, manager, trace, calls);
  }

  /** Where each kind of step sits in a log laid out stage by stage. */
  lemma Layout(steps: seq<Step>, m: Manager, ts: seq<CallGraph.TraceEvent>,
               es: seq<Traversal.Event<InstrumentationFunc>>)
    requires steps == [NewManager(m)] + AsReports(ts) + AsCalls(es) + [WroteDiff]
    ensures |steps| == 2 + |ts| + |es|
    ensures steps[0] == NewManager(m) && steps[|steps| - 1] == WroteDiff
    ensures steps[1 .. 1 + |ts|] == AsReports(ts)
    ensures steps[1 + |ts| .. |steps| - 1] == AsCalls(es)
    ensures forall k :: 0 <= k < |steps| ==>
              && (steps[k].NewManager? <==> k == 0)
              && (steps[k].Traced? <==> 1 <= k < 1 + |ts|)
              && (steps[k].Instrumented? <==> 1 + |ts| <= k < 1 + |ts| + |es|)
              && (steps[k].WroteDiff? <==> k == |steps| - 1)
    ensures forall i, j :: 0 <= i < j < |steps| && steps[i].Instrumented? ==> !steps[j].Traced?
  {
    forall k | 0 <= k < |steps|
      ensures && (steps[k].NewManager? <==> k == 0)
              && (steps[k].Traced? <==> 1 <= k < 1 + |ts|)
              && (steps[k].Instrumented? <==> 1 + |ts| <= k < 1 + |ts| + |es|)
              && (steps[k].WroteDiff? <==> k == |steps| - 1)
    {
      if k == 0 {
      } else if k < 1 + |ts| {
        assert steps[k] == AsReports(ts)[k - 1];
      } else if k < 1 + |ts| + |es| {
        assert steps[k] == AsCalls(es)[k - 1 - |ts|];
      }
    }
    assert steps[1 .. 1 + |ts|] == AsReports(ts);
    assert steps[1 + |ts| .. |steps| - 1] == AsCalls(es);
  }

  lemma {:induction false} AsReportsPrefix(a: seq<CallGraph.TraceEvent>, b: seq<CallGraph.TraceEvent>)
    requires a <= b
    ensures AsReports(a) <= AsReports(b)
  {
    assert AsReports(a) == AsReports(b)[..|a|];
  }

  /**
    `InstrumentPackage` with the call-graph pass exactly as the source runs
    it.  When some function declaration of the package has no body, the
    pass panics: the run stops after the reports made up to that point, so
    no instrumentation function is ever called and the diff is never
    written.  Otherwise the run is the stage-by-stage log.
  */
  method InstrumentPackageAsWritten(pkg: Package, appName: string, agentVariableName: string, diffFile: string)
    returns (steps: seq<Step>, panicked: bool)
    ensures panicked <==> exists f :: f in FuncDecls(pkg) && f.body.None?
    ensures |steps| > 0 && steps[0] == NewManager(Manager(pkg, appName, agentVariableName, diffFile))
    ensures panicked ==> steps[1..] <= AsReports(Reports(pkg))
    ensures panicked ==> forall k :: 0 <= k < |steps| ==> !steps[k].Instrumented? && !steps[k].WroteDiff?
    ensures !panicked ==>
      steps == [NewManager(Manager(pkg, appName, agentVariableName, diffFile))]
               + AsReports(Reports(pkg))
               + AsCalls(Traversal.Expand(Visited(pkg), InstrumentationOrder))
               + [WroteDiff]
  {
    var manager := Manager(pkg, appName, agentVariableName, diffFile);
    var fs := FuncDecls(pkg);
    var outcome := CallGraph.TraceAsWritten(fs);
    match outcome {
      case NilBodyPanic(t, culprit) =>
        ghost var k := CallGraph.PanicAtFirstBodyless(fs);
        AsReportsPrefix(t, Reports(pkg));
        steps := [NewManager(manager)] + AsReports(t);
        assert steps[1..] == AsReports(t);
        panicked := true;
      case Completed(t) =>
        var calls := Traversal.InstrumentPackage(pkg, InstrumentationOrder);
        steps := [NewManager(manager)] + AsReports(t) + AsCalls(calls) + [WroteDiff];
        panicked := false;
        assert forall f :: f in fs ==> f.body.Some?;
    }
  }

  /**
    At the node with index `i` of the visited list (each declaration's nodes
    in post-order), the five instrumentation functions are called one after
    the other, in the fixed order, before the walk moves to the next node.
  */
  lemma FixedOrderAtEveryNode(pkg: Package, steps: seq<Step>, i: int, j: int)
    requires |steps| == 2 + |Reports(pkg)| + |Traversal.Expand(Visited(pkg), InstrumentationOrder)|
    requires steps[1 + |Reports(pkg)| .. |steps| - 1]
          == AsCalls(Traversal.Expand(Visited(pkg), InstrumentationOrder))
    requires 0 <= i < |Visited(pkg)| && 0 <= j < |InstrumentationOrder|
    ensures 1 + |Reports(pkg)| + 5 * i + j < |steps| - 1
    ensures steps[1 + |Reports(pkg)| + 5 * i + j]
         == Instrumented(Traversal.Event(InstrumentationOrder[j], Visited(pkg)[i]))
  {
    var base := 1 + |Reports(pkg)|;
    Traversal.ExpandIndex(Visited(pkg), InstrumentationOrder, i, j);
    assert steps[base .. |steps| - 1][5 * i + j] == steps[base + 5 * i + j];
  }
}
