/**
  `ReplayFuzzHost` as the object of the source. A call swaps the current node
  for a fresh one, runs its callee, hangs the grown node below the old one and
  puts that back; the class is proved to build the graph, the counts and the
  proxy record that `CallGraphs` reads off the trace.
 */
module ReplayHosts {
  import opened Words
  import opened InstructionResults
  import opened Detector
  import opened CallGraphs
  import Journal
  import Evm

  class ReplayFuzzHost {
    const setup: ReplaySetup
    var sameDapp: bool
    var isDelegateCall: bool
    var callStackCache: Node
    var dappInvokeCount: InvokeCount
    var contractToLogic: map<Address, Address>
    var logicToStorage: map<Address, Address>
    var callDepth: nat
    var env: Env
    var callContext: Option<CallContext>

    ghost function Recorded(): Records
      reads `dappInvokeCount, `isDelegateCall, `contractToLogic, `logicToStorage
    {
      Records(dappInvokeCount, Proxies(isDelegateCall, contractToLogic, logicToStorage))
    }

    constructor (setup: ReplaySetup, rootContract: Address, functionSignature: Bytes, env: Env)
      ensures callStackCache == Root(rootContract, functionSignature) && Recorded() == NO_RECORDS
      ensures callDepth == 0 && this.setup == setup
    {
      this.setup := setup;
      this.env := env;
      sameDapp, isDelegateCall := true, false;
      callStackCache := Root(rootContract, functionSignature);
      dappInvokeCount, contractToLogic, logicToStorage := map[], map[], map[];
      callDepth, callContext := 0, None;
    }

    /** `step`: counts reads and writes in the current node, and notes delegate calls. */
    method Step(action: Action)
      modifies this`callStackCache, this`isDelegateCall
      ensures callStackCache == if action.Call? then old(callStackCache)
                                else GrowBy(setup, old(callStackCache), Frame(0, 0, 0, 0, []), action)
      ensures Recorded() == Record(old(Recorded()), StepMarks(action))
    {
      RecordNothing(Recorded(), []);
      match action
      case Sstore(_, _) => callStackCache := callStackCache.(write := callStackCache.write + 1);
      case Sload(_) => callStackCache := callStackCache.(read := callStackCache.read + 1);
      case Call(request, _) => MarkDelegate(request.scheme);
      case FailedCall(scheme) => MarkDelegate(scheme);
      case _ =>
    }

    method MarkDelegate(scheme: Scheme)
      modifies this`isDelegateCall
      ensures Recorded() == Record(old(Recorded()), DelegateMark(scheme))
    {
      RecordNothing(Recorded(), []);
      RecordOne(Recorded(), Delegate);
      if scheme == Evm.DelegateCall {
        isDelegateCall := true;
      }
    }

    method RunOpcode(f: Frame, action: Action) returns (result: InstructionResult)
      modifies this
      ensures callStackCache == GrowBy(setup, old(callStackCache), f, action)
      ensures Recorded() == Record(old(Recorded()), TraceOf(setup, f, action))
      ensures callDepth == old(callDepth) && env == old(env) && callContext == old(callContext)
      ensures result == ActionResult(setup, action)
      decreases action
    {
      ghost var records := Recorded();
      Step(action);
      result := Continue;
      if !action.Call? {
        StepTrace(setup, f, action, records);
      } else {
        CallTrace(setup, f, action.request, action.callee);
        RecordConcat(records, StepMarks(action), HostTrace(setup, f, action.request, action.callee));
        var reason := CallHost(f, action.request, action.callee);
        if reason == FatalExternalError {
          result := reason;
        }
      }
    }

    /** The interpreter loop. */
    method RunInspect(f: Frame, p: Program) returns (result: InstructionResult)
      modifies this
      ensures callStackCache == Grow(setup, old(callStackCache), f, p.actions)
      ensures Recorded() == Record(old(Recorded()), Trace(setup, f, p.actions))
      ensures callDepth == old(callDepth) && env == old(env) && callContext == old(callContext)
      ensures result == ProgramResult(setup, p)
      decreases p, 0
    {
      result := Continue;
      var k := 0;
      ghost var node, records, trace := callStackCache, Recorded(), [];
      Started(setup, f, p.actions, node);
      RecordNothing(records, []);
      while result == Continue && k < |p.actions|
        invariant callDepth == old(callDepth) && env == old(env) && callContext == old(callContext)
        invariant Underway(setup, f, p.actions, k, result, node, callStackCache, trace)
        invariant Recorded() == Record(records, trace)
        decreases |p.actions| - k
      {
        OneTurn(setup, f, p.actions, k, node, callStackCache, trace);
        RecordConcat(records, trace, TraceOf(setup, f, p.actions[k]));
        result := RunOpcode(f, p.actions[k]);
        trace := trace + TraceOf(setup, f, p.actions[k]);
        k := k + 1;
      }
      Finished(setup, f, p.actions, k, result, node, callStackCache, trace);
      if result == Continue {
        result := p.exit;
      }
    }

    method AddInvokeOf(l: Label)
      modifies this`dappInvokeCount
      ensures dappInvokeCount == AddInvoke(old(dappInvokeCount), KeyOf(l))
    {
      var key := KeyOf(l);
      if key in dappInvokeCount {
        dappInvokeCount := dappInvokeCount[key := dappInvokeCount[key] + 1];
      } else {
        dappInvokeCount := dappInvokeCount[key := 1];
      }
    }

    /** Records a proxy, if the call that is starting is taken for one's delegation. */
    method NoteProxy(f: Frame, request: Request)
      modifies this`contractToLogic, this`logicToStorage, this`isDelegateCall
      ensures Recorded() == Record(old(Recorded()), [CalledOf(f, request)])
    {
      RecordOne(Recorded(), CalledOf(f, request));
      if isDelegateCall {
        if Selector(f.input) == Selector(request.input) {
          contractToLogic := contractToLogic[f.address := request.to];
          logicToStorage := logicToStorage[request.to := f.address];
        }
        isDelegateCall := false;
      }
    }

    /** `call`. */
    method CallHost(f: Frame, request: Request, callee: Program) returns (reason: InstructionResult)
      modifies this
      ensures callStackCache == GrowBy(setup, old(callStackCache), f, Call(request, callee))
      ensures Recorded() == Record(old(Recorded()), HostTrace(setup, f, request, callee))
      ensures callDepth == old(callDepth) && env == old(env) && callContext == old(callContext)
      ensures reason == FatalExternalError <==> ActionResult(setup, Call(request, callee)) == FatalExternalError
      decreases callee, 4
    {
      callDepth := callDepth + 1;
      reason := RecordCall(f, request, callee);
      callDepth := callDepth - 1;
    }

    /** What `call` does one level deeper. */
    method RecordCall(f: Frame, request: Request, callee: Program) returns (reason: InstructionResult)
      modifies this
      ensures callStackCache == GrowBy(setup, old(callStackCache), f, Call(request, callee))
      ensures Recorded() == Record(old(Recorded()), HostTrace(setup, f, request, callee))
      ensures callDepth == old(callDepth) && env == old(env) && callContext == old(callContext)
      ensures reason == FatalExternalError <==> ActionResult(setup, Call(request, callee)) == FatalExternalError
      decreases callee, 3
    {
      var l := LabelOf(setup, request);
      sameDapp := l.isSame;
      ghost var records := Recorded();
      NoteProxy(f, request);
      if Journal.IsPrecompile(request.to, setup.numOfPrecompiles) {
        assert HostTrace(setup, f, request, callee) == [CalledOf(f, request)];
        reason := CallPrecompile(request).0;
      } else {
        RecordConcat(records, [CalledOf(f, request)], FrameTrace(setup, f, request, callee));
        reason := CallNode(f, request, callee, l);
      }
    }

    /** The swap of nodes around a callee. */
    method CallNode(f: Frame, request: Request, callee: Program, l: Label) returns (reason: InstructionResult)
      requires l == LabelOf(setup, request) && sameDapp == l.isSame
      modifies this
      ensures callStackCache == old(callStackCache).(children := old(callStackCache).children
                                                     + [CalleeNode(setup, f, request, callee)])
      ensures Recorded() == Record(old(Recorded()), FrameTrace(setup, f, request, callee))
      ensures callDepth == old(callDepth) && env == old(env) && callContext == old(callContext)
      ensures reason == FatalExternalError
         <==> setup.chain.code(request.to).Some? && ProgramResult(setup, callee) == FatalExternalError
      decreases callee, 2
    {
      RecordOne(Recorded(), Enter(l));
      FrameRecorded(Recorded(), setup, f, request, callee);
      if !sameDapp {
        AddInvokeOf(l);
      }
      var nodeCache := callStackCache;
      callStackCache := Node(request.to, sameDapp, l.selector, [], 0, 0, 1, l.info.dapp);
      reason := ReplayCall(InputOf(f, request), callee);
      callStackCache := nodeCache.(children := nodeCache.children + [callStackCache]);
    }

    /** Enters the callee's context, runs its code if it has any, and goes back. */
    method ReplayCall(input: CallInput, callee: Program) returns (result: InstructionResult)
      modifies this
      ensures callStackCache == if setup.chain.code(input.context.codeAddress).Some?
                                then Grow(setup, old(callStackCache), FrameOf(input), callee.actions)
                                  else old(callStackCache)
      ensures Recorded() == Record(old(Recorded()), if setup.chain.code(input.context.codeAddress).Some?
                                                    then Trace(setup, FrameOf(input), callee.actions) else [])
      ensures callDepth == old(callDepth) && env == old(env) && callContext == old(callContext)
      ensures result == if setup.chain.code(input.context.codeAddress).Some? then ProgramResult(setup, callee)
                        else Continue
      decreases callee, 1
    {
      var oldCallContext, oldEnv := callContext, env;
      callContext := Some(input.context);
      env := env.(to := input.context.address, value := input.context.apparentValue, data := input.input);
      if setup.chain.code(input.context.codeAddress).Some? {
        result := RunInspect(FrameOf(input), callee);
      } else {
        result := Continue;
      }
      callContext := oldCallContext;
      env := oldEnv;
    }

    /**
      A whole transaction: the graph is the outline of its trace, and the counts add up to its
      calls into other DApps.
     */
    method ReplayTransaction(f: Frame, p: Program) returns (result: InstructionResult)
      requires callStackCache == Root(f.address, Selector(f.input))
               && Recorded() == NO_RECORDS
      modifies this
      ensures var trace := Trace(setup, f, p.actions);
              && Rows(callStackCache, 0)[1..] == Outline(trace, 1)
              && callStackCache.read == OwnCount(trace, 0, Read) && callStackCache.write == OwnCount(trace, 0, Write)
              && Recorded() == Record(NO_RECORDS, trace)
      ensures SumOfCounts(dappInvokeCount) == ForeignRows(Rows(callStackCache, 0))
      ensures callDepth == old(callDepth) && env == old(env) && callContext == old(callContext)
    {
      result := RunInspect(f, p);
      TransactionGraph(setup, f, p.actions);
      InvokesAreForeignRows(setup, f, p.actions, callStackCache);
    }
  }
}
