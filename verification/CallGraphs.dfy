/**
  Replay (src/evm/replay): what a transaction's run leaves in the call graph,
  the invocation counts and the proxy record. `Trace` is the flat list of what
  the replay host sees; `Outline` reads the call graph off it by brackets alone.
 */
module CallGraphs {
  import opened Words
  import opened InstructionResults
  import opened Detector
  import Journal
  import Evm

  /** `dapp` is the DApp of the replayed transaction. */
  datatype ReplaySetup = ReplaySetup(chain: Chain, dapp: string, numOfPrecompiles: nat)

  datatype Node = Node(
    contract: Address, isSame: bool, selector: Bytes, children: seq<Node>, write: nat, read: nat, invoke: nat,
      dappName: string)

  datatype Label = Label(contract: Address, info: DappInfo, isSame: bool, selector: Bytes)

  datatype Event =
    | Read
    | Write
    | Delegate
    | Called(storage: Address, logic: Address, sameSelector: bool)
    | Enter(callee: Label)
    | Exit

  /** The key of an invocation count; an unknown DApp is told apart by its contract. */
  datatype InvokeKey = InvokeKey(unknownContract: Option<Address>, dapp: string, contract: Address, selector: Bytes)

  function NewNode(l: Label): Node {
    Node(l.contract, l.isSame, l.selector, [], 0, 0, 1, l.info.dapp)
  }

  /** The root of the graph of a transaction. */
  function Root(contract: Address, selector: Bytes): Node {
    Node(contract, true, selector, [], 0, 0, 1, "root")
  }

  predicate SameAsReplayed(s: ReplaySetup, info: DappInfo) {
    !info.Unknown() && info.dapp == s.dapp
  }

  function LabelOf(s: ReplaySetup, r: Request): Label {
    var info := s.chain.dapp(r.to);
    Label(r.to, info, SameAsReplayed(s, info), Selector(r.input))
  }

  function KeyOf(l: Label): InvokeKey {
    InvokeKey(if l.info.Unknown() then Some(l.contract) else None, l.info.dapp, l.contract, l.selector)
  }

  // ---------------------------------------------------------------- results and traces

  /** A fatal result is the only one of a callee that stops its caller. */
  function ActionResult(s: ReplaySetup, action: Action): InstructionResult
    decreases action
  {
    if action.Call? && !Journal.IsPrecompile(action.request.to, s.numOfPrecompiles)
      && s.chain.code(action.request.to).Some?
       && ProgramResult(s, action.callee) == FatalExternalError
    then FatalExternalError
    else Continue
  }

  function ActionsResult(s: ReplaySetup, actions: seq<Action>): InstructionResult
    decreases actions
  {
    if actions == [] then Continue
    else if ActionResult(s, actions[0]) == Continue then ActionsResult(s, actions[1..])
    else FatalExternalError
  }

  function ProgramResult(s: ReplaySetup, p: Program): InstructionResult
    decreases p
  {
    if ActionsResult(s, p.actions) == Continue then p.exit else FatalExternalError
  }

  function Trace(s: ReplaySetup, f: Frame, actions: seq<Action>): seq<Event>
    decreases actions
  {
    if actions == [] then []
    else
      TraceOf(s, f, actions[0])
      + if ActionResult(s, actions[0]) == Continue then Trace(s, f, actions[1..]) else []
  }

  function TraceOf(s: ReplaySetup, f: Frame, action: Action): seq<Event>
    decreases action
  {
    match action
    case Sload(_) => [Read]
    case Sstore(_, _) => [Write]
    case FailedCall(scheme) => DelegateMark(scheme)
    case Call(request, callee) =>
      CallMarks(f, request)
      + if Journal.IsPrecompile(request.to, s.numOfPrecompiles) then []
        else
          [Enter(LabelOf(s, request))]
          + (if s.chain.code(request.to).Some? then Trace(s, FrameOf(InputOf(f, request)), callee.actions) else [])
          + [Exit]
    case _ => []
  }

  /** `step` marks every DELEGATECALL, also one that never gets to `call`. */
  function DelegateMark(scheme: Scheme): seq<Event> {
    if scheme == Evm.DelegateCall then [Delegate] else []
  }

  /** What `step` and the start of `call` note of a call. */
  function CallMarks(f: Frame, r: Request): seq<Event> {
    DelegateMark(r.scheme) + [CalledOf(f, r)]
  }

  function CalledOf(f: Frame, r: Request): Event {
    Called(f.address, r.to, Selector(f.input) == Selector(r.input))
  }

  // ---------------------------------------------------------------- the graph

  /** The current node after an action. */
  function GrowBy(s: ReplaySetup, node: Node, f: Frame, action: Action): Node
    decreases action, 1
  {
    match action
    case Sload(_) => node.(read := node.read + 1)
    case Sstore(_, _) => node.(write := node.write + 1)
    case Call(request, callee) =>
      if Journal.IsPrecompile(request.to, s.numOfPrecompiles) then node
      else node.(children := node.children + [CalleeNode(s, f, request, callee)])
    case _ => node
  }

  function CalleeNode(s: ReplaySetup, f: Frame, request: Request, callee: Program): Node
    decreases callee, 0
  {
    var node := NewNode(LabelOf(s, request));
    if s.chain.code(request.to).Some? then Grow(s, node, FrameOf(InputOf(f, request)), callee.actions) else node
  }

  function Grow(s: ReplaySetup, node: Node, f: Frame, actions: seq<Action>): Node
    decreases actions, 0
  {
    if actions == [] then node
    else
      var node1 := GrowBy(s, node, f, actions[0]);
      if ActionResult(s, actions[0]) == Continue then Grow(s, node1, f, actions[1..]) else node1
  }

  // ---------------------------------------------------------------- the graph, read off the trace

  /** One call in the order of the trace: what was called, how deep, and what it read and wrote itself. */
  datatype Row = Row(
    contract: Address, isSame: bool, selector: Bytes, dappName: string, depth: nat, read: nat, write: nat, invoke: nat)

  /** How often `e` occurs in the innermost open frame at the start of `trace`, until that frame is closed. */
  function OwnCount(trace: seq<Event>, depth: nat, e: Event): nat {
    if trace == [] then 0
    else match trace[0]
      case Enter(_) => OwnCount(trace[1..], depth + 1, e)
      case Exit => if depth == 0 then 0 else OwnCount(trace[1..], depth - 1, e)
      case _ => (if depth == 0 && trace[0] == e then 1 else 0) + OwnCount(trace[1..], depth, e)
  }

  function RowOf(l: Label, depth: nat, rest: seq<Event>): Row {
    Row(l.contract, l.isSame, l.selector, l.info.dapp, depth, OwnCount(rest, 0, Read), OwnCount(rest, 0, Write), 1)
  }

  function Outline(trace: seq<Event>, depth: nat): seq<Row> {
    if trace == [] then []
    else match trace[0]
      case Enter(l) => [RowOf(l, depth, trace[1..])] + Outline(trace[1..], depth + 1)
      case Exit => if depth == 0 then [] else Outline(trace[1..], depth - 1)
      case _ => Outline(trace[1..], depth)
  }

  /** A graph in the order of its calls, callers first. */
  function Rows(node: Node, depth: nat): seq<Row>
    decreases node
  {
    [Row(node.contract, node.isSame, node.selector, node.dappName, depth, node.read, node.write, node.invoke)]
    + RowsOfAll(node.children, depth + 1)
  }

  function RowsOfAll(nodes: seq<Node>, depth: nat): seq<Row>
    decreases nodes
  {
    if nodes == [] then [] else Rows(nodes[0], depth) + RowsOfAll(nodes[1..], depth)
  }

  /** The events of a callee's frame, without and with its brackets. */
  function BodyTrace(s: ReplaySetup, f: Frame, request: Request, callee: Program): seq<Event> {
    if s.chain.code(request.to).Some? then Trace(s, FrameOf(InputOf(f, request)), callee.actions) else []
  }

  function FrameTrace(s: ReplaySetup, f: Frame, request: Request, callee: Program): seq<Event> {
    [Enter(LabelOf(s, request))] + BodyTrace(s, f, request, callee) + [Exit]
  }

  // ---------------------------------------------------------------- traces are balanced

  /** The trace of `actions`, in the two ways it goes on after the first of them. */
  lemma TraceSplit(s: ReplaySetup, f: Frame, actions: seq<Action>, t: seq<Event>)
    requires actions != []
    ensures ActionResult(s, actions[0]) != Continue ==> Trace(s, f, actions) == TraceOf(s, f, actions[0])
    ensures ActionResult(s, actions[0]) == Continue ==>
              && Trace(s, f, actions) == TraceOf(s, f, actions[0]) + Trace(s, f, actions[1..])
              && Trace(s, f, actions) + t == TraceOf(s, f, actions[0]) + (Trace(s, f, actions[1..]) + t)
  {
    var rest := if ActionResult(s, actions[0]) == Continue then Trace(s, f, actions[1..]) else [];
    TraceFirst(s, f, actions, TraceOf(s, f, actions[0]), rest);
    AssociateSeqs(TraceOf(s, f, actions[0]), rest, t);
    assert TraceOf(s, f, actions[0]) + [] == TraceOf(s, f, actions[0]);
  }

  lemma TraceFirst(s: ReplaySetup, f: Frame, actions: seq<Action>, first: seq<Event>, rest: seq<Event>)
    requires actions != [] && first == TraceOf(s, f, actions[0])
    requires rest == if ActionResult(s, actions[0]) == Continue then Trace(s, f, actions[1..]) else []
    ensures Trace(s, f, actions) == first + rest
  {
  }

  lemma {:induction false} OwnCountBalanced(s: ReplaySetup, f: Frame, actions: seq<Action>, t: seq<Event>, depth: nat,
                                            e: Event)
    ensures OwnCount(Trace(s, f, actions) + t, depth, e)
         == (if depth == 0 then OwnCount(Trace(s, f, actions), 0, e) else 0) + OwnCount(t, depth, e)
    decreases actions, 0
  {
    if actions == [] {
      assert [] + t == t;
    } else {
      TraceSplit(s, f, actions, t);
      if ActionResult(s, actions[0]) == Continue {
        var rest := Trace(s, f, actions[1..]);
        OwnCountOfOne(s, f, actions[0], rest + t, depth, e);
        OwnCountOfOne(s, f, actions[0], rest, 0, e);
        OwnCountBalanced(s, f, actions[1..], t, depth, e);
      } else {
        OwnCountOfOne(s, f, actions[0], t, depth, e);
      }
    }
  }

  lemma {:induction false} OwnCountOfOne(s: ReplaySetup, f: Frame, action: Action, t: seq<Event>, depth: nat, e: Event)
    ensures OwnCount(TraceOf(s, f, action) + t, depth, e)
         == (if depth == 0 then OwnCount(TraceOf(s, f, action), 0, e) else 0) + OwnCount(t, depth, e)
    decreases action, 1
  {
    match action
    case Sload(_) => SingleEvent(Read, t, depth, e);
    case Sstore(_, _) => SingleEvent(Write, t, depth, e);
    case FailedCall(scheme) => FailedCallCounts(scheme, t, depth, e);
    case Call(request, callee) =>
      OwnCountOfCall(s, f, request, callee, t, depth, e);
      OwnCountOfCall(s, f, request, callee, [], 0, e);
      assert TraceOf(s, f, action) + [] == TraceOf(s, f, action);
    case _ => assert [] + t == t;
  }

  lemma FailedCallCounts(scheme: Scheme, t: seq<Event>, depth: nat, e: Event)
    ensures OwnCount(DelegateMark(scheme) + t, depth, e)
         == (if depth == 0 then OwnCount(DelegateMark(scheme), 0, e) else 0) + OwnCount(t, depth, e)
  {
    if scheme == Evm.DelegateCall {
      SingleEvent(Delegate, t, depth, e);
    } else {
      assert [] + t == t;
    }
  }

  lemma SingleEvent(x: Event, t: seq<Event>, depth: nat, e: Event)
    requires !x.Enter? && !x.Exit?
    ensures OwnCount([x] + t, depth, e) == (if depth == 0 then OwnCount([x], 0, e) else 0) + OwnCount(t, depth, e)
  {
    assert ([x] + t)[1..] == t && [x][1..] == [];
  }

  /** The trace of a call and what follows it, taken apart. */
  lemma CallThen(s: ReplaySetup, f: Frame, request: Request, callee: Program, t: seq<Event>)
    ensures TraceOf(s, f, Call(request, callee)) + t
         == CallMarks(f, request)
            + if Journal.IsPrecompile(request.to, s.numOfPrecompiles) then t
              else [Enter(LabelOf(s, request))] + (BodyTrace(s, f, request, callee) + ([Exit] + t))
  {
    var rest := if Journal.IsPrecompile(request.to, s.numOfPrecompiles) then [] else FrameTrace(s, f, request, callee);
    MarksThen(s, f, request, callee, rest);
    AssociateSeqs(CallMarks(f, request), rest, t);
    if rest == [] {
      assert rest + t == t;
    } else {
      FrameThen([Enter(LabelOf(s, request))], BodyTrace(s, f, request, callee), t);
    }
  }

  lemma MarksThen(s: ReplaySetup, f: Frame, request: Request, callee: Program, rest: seq<Event>)
    requires rest == if Journal.IsPrecompile(request.to, s.numOfPrecompiles) then []
                     else FrameTrace(s, f, request, callee)
    ensures TraceOf(s, f, Call(request, callee)) == CallMarks(f, request) + rest
  {
  }

  lemma FrameThen(enter: seq<Event>, body: seq<Event>, t: seq<Event>)
    ensures enter + body + [Exit] + t == enter + (body + ([Exit] + t))
  {
    AssociateSeqs(enter + body, [Exit], t);
    AssociateSeqs(enter, body, [Exit] + t);
  }

  /** What `call` itself leaves in the trace. */
  function HostTrace(s: ReplaySetup, f: Frame, request: Request, callee: Program): seq<Event> {
    [CalledOf(f, request)]
    + if Journal.IsPrecompile(request.to, s.numOfPrecompiles) then [] else FrameTrace(s, f, request, callee)
  }

  lemma CallTrace(s: ReplaySetup, f: Frame, request: Request, callee: Program)
    ensures TraceOf(s, f, Call(request, callee)) == DelegateMark(request.scheme) + HostTrace(s, f, request, callee)
  {
    var rest := if Journal.IsPrecompile(request.to, s.numOfPrecompiles) then [] else FrameTrace(s, f, request, callee);
    MarksThen(s, f, request, callee, rest);
    AssociateSeqs(DelegateMark(request.scheme), [CalledOf(f, request)], rest);
  }

  lemma {:induction false} OwnCountOfBody(s: ReplaySetup, f: Frame, request: Request, callee: Program, t: seq<Event>,
                                          depth: nat, e: Event)
    ensures OwnCount(BodyTrace(s, f, request, callee) + t, depth, e)
         == (if depth == 0 then OwnCount(BodyTrace(s, f, request, callee), 0, e) else 0) + OwnCount(t, depth, e)
    decreases callee, 0
  {
    if s.chain.code(request.to).Some? {
      OwnCountBalanced(s, FrameOf(InputOf(f, request)), callee.actions, t, depth, e);
    } else {
      assert [] + t == t;
    }
  }

  /** A closed frame counts nothing for the frame around it. */
  lemma OwnCountOfFrame(l: Label, body: seq<Event>, t: seq<Event>, depth: nat, e: Event)
    requires OwnCount(body + ([Exit] + t), depth + 1, e) == OwnCount([Exit] + t, depth + 1, e)
    ensures OwnCount([Enter(l)] + (body + ([Exit] + t)), depth, e) == OwnCount(t, depth, e)
  {
    assert ([Enter(l)] + (body + ([Exit] + t)))[1..] == body + ([Exit] + t);
    assert ([Exit] + t)[1..] == t;
  }

  /** A call counts only where it stands: its marks. */
  lemma {:induction false} OwnCountOfCall(s: ReplaySetup, f: Frame, request: Request, callee: Program, t: seq<Event>,
                                          depth: nat, e: Event)
    ensures OwnCount(TraceOf(s, f, Call(request, callee)) + t, depth, e)
         == (if depth == 0 then OwnCount(CallMarks(f, request), 0, e) else 0) + OwnCount(t, depth, e)
    decreases callee, 1
  {
    CallThen(s, f, request, callee, t);
    if Journal.IsPrecompile(request.to, s.numOfPrecompiles) {
      OwnCountOfMarks(f, request, t, depth, e);
    } else {
      var body := BodyTrace(s, f, request, callee);
      OwnCountOfMarks(f, request, [Enter(LabelOf(s, request))] + (body + ([Exit] + t)), depth, e);
      OwnCountOfBody(s, f, request, callee, [Exit] + t, depth + 1, e);
      OwnCountOfFrame(LabelOf(s, request), body, t, depth, e);
    }
  }

  lemma OwnCountOfMarks(f: Frame, request: Request, t: seq<Event>, depth: nat, e: Event)
    ensures OwnCount(CallMarks(f, request) + t, depth, e)
         == (if depth == 0 then OwnCount(CallMarks(f, request), 0, e) else 0) + OwnCount(t, depth, e)
  {
    var called := [CalledOf(f, request)];
    SingleEvent(called[0], t, depth, e);
    if request.scheme == Evm.DelegateCall {
      AssociateSeqs([Delegate], called, t);
      SingleEvent(Delegate, called + t, depth, e);
      SingleEvent(Delegate, called, 0, e);
    } else {
      assert CallMarks(f, request) == called;
    }
  }

  /** The marks are no accesses and no calls. */
  lemma MarksCountNothing(f: Frame, request: Request, e: Event)
    requires e == Read || e == Write
    ensures OwnCount(CallMarks(f, request), 0, e) == 0 && ForeignEnters(CallMarks(f, request)) == 0
  {
    var called := [CalledOf(f, request)];
    assert called[1..] == [];
    assert OwnCount(called, 0, e) == OwnCount(called[1..], 0, e) && ForeignEnters(called) == ForeignEnters(called[1..]);
    if request.scheme == Evm.DelegateCall {
      var delegate := [Delegate];
      assert (delegate + called)[1..] == called;
      assert OwnCount(delegate + called, 0, e) == OwnCount((delegate + called)[1..], 0, e);
      assert ForeignEnters(delegate + called) == ForeignEnters((delegate + called)[1..]);
    } else {
      assert CallMarks(f, request) == called;
    }
  }

  lemma {:induction false} OutlineBalanced(s: ReplaySetup, f: Frame, actions: seq<Action>, t: seq<Event>, depth: nat)
    ensures Outline(Trace(s, f, actions) + t, depth) == Outline(Trace(s, f, actions), depth) + Outline(t, depth)
    decreases actions, 0
  {
    if actions == [] {
      assert [] + t == t;
    } else {
      TraceSplit(s, f, actions, t);
      if ActionResult(s, actions[0]) == Continue {
        var rest := Trace(s, f, actions[1..]);
        OutlineOfOne(s, f, actions[0], rest + t, depth);
        OutlineOfOne(s, f, actions[0], rest, depth);
        OutlineBalanced(s, f, actions[1..], t, depth);
        AssociateSeqs(Outline(TraceOf(s, f, actions[0]), depth), Outline(rest, depth), Outline(t, depth));
      } else {
        OutlineOfOne(s, f, actions[0], t, depth);
      }
    }
  }

  lemma {:induction false} OutlineOfOne(s: ReplaySetup, f: Frame, action: Action, t: seq<Event>, depth: nat)
    ensures Outline(TraceOf(s, f, action) + t, depth) == Outline(TraceOf(s, f, action), depth) + Outline(t, depth)
    decreases action, 1
  {
    match action
    case Sload(_) => OutlineSkips(Read, t, depth);
    case Sstore(_, _) => OutlineSkips(Write, t, depth);
    case FailedCall(scheme) => FailedCallSkipped(scheme, t, depth);
    case Call(request, callee) =>
      OutlineOfCall(s, f, request, callee, t, depth);
      OutlineOfCall(s, f, request, callee, [], depth);
      assert TraceOf(s, f, action) + [] == TraceOf(s, f, action);
      assert CallRows(s, f, request, callee, depth) + [] == CallRows(s, f, request, callee, depth);
    case _ => assert [] + t == t;
  }

  lemma FailedCallSkipped(scheme: Scheme, t: seq<Event>, depth: nat)
    ensures Outline(DelegateMark(scheme), depth) == [] && Outline(DelegateMark(scheme) + t, depth) == Outline(t, depth)
  {
    if scheme == Evm.DelegateCall {
      OutlineSkips(Delegate, t, depth);
    } else {
      assert [] + t == t;
    }
  }

  lemma OutlineSkips(x: Event, t: seq<Event>, depth: nat)
    requires !x.Enter? && !x.Exit?
    ensures Outline([x], depth) == [] && Outline([x] + t, depth) == Outline(t, depth)
  {
    assert ([x] + t)[1..] == t && [x][1..] == [];
  }

  /** The rows of a call, as the trace of its frame gives them. */
  function CallRows(s: ReplaySetup, f: Frame, request: Request, callee: Program, depth: nat): seq<Row> {
    if Journal.IsPrecompile(request.to, s.numOfPrecompiles) then []
    else
      var body := BodyTrace(s, f, request, callee);
      [RowOf(LabelOf(s, request), depth, body)] + Outline(body, depth + 1)
  }

  /** The outline of a closed frame, from that of its body. */
  lemma OutlineOfFrame(l: Label, body: seq<Event>, t: seq<Event>, depth: nat)
    requires Outline(body + ([Exit] + t), depth + 1) == Outline(body, depth + 1) + Outline([Exit] + t, depth + 1)
    requires OwnCount(body + ([Exit] + t), 0, Read) == OwnCount(body, 0, Read) + OwnCount([Exit] + t, 0, Read)
    requires OwnCount(body + ([Exit] + t), 0, Write) == OwnCount(body, 0, Write) + OwnCount([Exit] + t, 0, Write)
    ensures Outline([Enter(l)] + (body + ([Exit] + t)), depth)
            == [RowOf(l, depth, body)] + Outline(body, depth + 1) + Outline(t, depth)
  {
    assert ([Enter(l)] + (body + ([Exit] + t)))[1..] == body + ([Exit] + t);
    assert ([Exit] + t)[1..] == t;
  }

  lemma {:induction false} OutlineOfBody(s: ReplaySetup, f: Frame, request: Request, callee: Program, t: seq<Event>,
                                         depth: nat)
    ensures Outline(BodyTrace(s, f, request, callee) + t, depth)
            == Outline(BodyTrace(s, f, request, callee), depth) + Outline(t, depth)
    decreases callee, 0
  {
    if s.chain.code(request.to).Some? {
      OutlineBalanced(s, FrameOf(InputOf(f, request)), callee.actions, t, depth);
    } else {
      assert [] + t == t;
    }
  }

  lemma {:induction false} OutlineOfCall(s: ReplaySetup, f: Frame, request: Request, callee: Program, t: seq<Event>,
                                         depth: nat)
    ensures Outline(TraceOf(s, f, Call(request, callee)) + t, depth)
            == CallRows(s, f, request, callee, depth) + Outline(t, depth)
    decreases callee, 1
  {
    CallThen(s, f, request, callee, t);
    if Journal.IsPrecompile(request.to, s.numOfPrecompiles) {
      OutlineOfMarks(f, request, t, depth);
    } else {
      var l, body := LabelOf(s, request), BodyTrace(s, f, request, callee);
      OutlineOfMarks(f, request, [Enter(l)] + (body + ([Exit] + t)), depth);
      OutlineOfBody(s, f, request, callee, [Exit] + t, depth + 1);
      OwnCountOfBody(s, f, request, callee, [Exit] + t, 0, Read);
      OwnCountOfBody(s, f, request, callee, [Exit] + t, 0, Write);
      OutlineOfFrame(l, body, t, depth);
    }
  }

  lemma OutlineOfMarks(f: Frame, request: Request, t: seq<Event>, depth: nat)
    ensures Outline(CallMarks(f, request) + t, depth) == Outline(t, depth)
  {
    var called := [CalledOf(f, request)];
    OutlineSkips(called[0], t, depth);
    if request.scheme == Evm.DelegateCall {
      AssociateSeqs([Delegate], called, t);
      OutlineSkips(Delegate, called + t, depth);
    } else {
      assert CallMarks(f, request) == called;
    }
  }

  // ---------------------------------------------------------------- the graph is the bracket structure

  lemma {:induction false} RowsOfMore(nodes: seq<Node>, node: Node, depth: nat)
    ensures RowsOfAll(nodes + [node], depth) == RowsOfAll(nodes, depth) + Rows(node, depth)
  {
    if nodes == [] {
      assert [node][1..] == [];
    } else {
      assert (nodes + [node])[1..] == nodes[1..] + [node];
      RowsOfMore(nodes[1..], node, depth);
    }
  }

  /** `node'` is `node` grown by a piece of run with the given trace. */
  ghost predicate Grown(node: Node, trace: seq<Event>, node': Node, depth: nat) {
    && node'.read == node.read + OwnCount(trace, 0, Read)
    && node'.write == node.write + OwnCount(trace, 0, Write)
    && node' == node.(read := node'.read, write := node'.write, children := node'.children)
    && RowsOfAll(node'.children, depth) == RowsOfAll(node.children, depth) + Outline(trace, depth)
  }

  /**
    The call graph is the bracket structure of the trace: the calls in order and
    at their depths, and in each node the reads and writes of its own frame only.
   */
  lemma {:induction false} GraphIsOutline(s: ReplaySetup, node: Node, f: Frame, actions: seq<Action>, depth: nat)
    ensures Grown(node, Trace(s, f, actions), Grow(s, node, f, actions), depth)
    decreases actions, 0
  {
    if actions != [] {
      var node1 := GrowBy(s, node, f, actions[0]);
      TraceSplit(s, f, actions, []);
      GrownByOne(s, node, f, actions[0], depth);
      if ActionResult(s, actions[0]) == Continue {
        GraphIsOutline(s, node1, f, actions[1..], depth);
        GrownTwice(s, node, f, actions[0], node1, Trace(s, f, actions[1..]), Grow(s, node1, f, actions[1..]), depth);
      }
    }
  }

  lemma GrownTwice(s: ReplaySetup, node: Node, f: Frame, action: Action, node1: Node, rest: seq<Event>, node2: Node,
                   depth: nat)
    requires Grown(node, TraceOf(s, f, action), node1, depth) && Grown(node1, rest, node2, depth)
    ensures Grown(node, TraceOf(s, f, action) + rest, node2, depth)
  {
    OwnCountOfOne(s, f, action, rest, 0, Read);
    OwnCountOfOne(s, f, action, rest, 0, Write);
    OutlineOfOne(s, f, action, rest, depth);
    AssociateSeqs(RowsOfAll(node.children, depth), Outline(TraceOf(s, f, action), depth), Outline(rest, depth));
  }

  lemma {:induction false} GrownByOne(s: ReplaySetup, node: Node, f: Frame, action: Action, depth: nat)
    ensures Grown(node, TraceOf(s, f, action), GrowBy(s, node, f, action), depth)
    decreases action, 1
  {
    match action
    case Sload(_) => OutlineSkips(Read, [], depth);
    case Sstore(_, _) => OutlineSkips(Write, [], depth);
    case FailedCall(scheme) => FailedCallSkipped(scheme, [], depth);
    case Call(request, callee) => GrownByCall(s, node, f, request, callee, depth);
    case _ =>
  }

  /** A call adds rows, and neither a read nor a write of the caller. */
  lemma CallIsNoAccess(s: ReplaySetup, f: Frame, request: Request, callee: Program, depth: nat)
    ensures var trace := TraceOf(s, f, Call(request, callee));
            && OwnCount(trace, 0, Read) == 0 && OwnCount(trace, 0, Write) == 0
            && Outline(trace, depth) == CallRows(s, f, request, callee, depth)
  {
    var trace := TraceOf(s, f, Call(request, callee));
    OwnCountOfCall(s, f, request, callee, [], 0, Read);
    OwnCountOfCall(s, f, request, callee, [], 0, Write);
    OutlineOfCall(s, f, request, callee, [], depth);
    MarksCountNothing(f, request, Read);
    MarksCountNothing(f, request, Write);
    assert trace + [] == trace;
    assert CallRows(s, f, request, callee, depth) + [] == CallRows(s, f, request, callee, depth);
  }

  lemma {:induction false} GrownByCall(s: ReplaySetup, node: Node, f: Frame, request: Request, callee: Program,
                                       depth: nat)
    ensures Grown(node, TraceOf(s, f, Call(request, callee)), GrowBy(s, node, f, Call(request, callee)), depth)
    decreases callee, 1
  {
    CallIsNoAccess(s, f, request, callee, depth);
    if Journal.IsPrecompile(request.to, s.numOfPrecompiles) {
      assert RowsOfAll(node.children, depth) + [] == RowsOfAll(node.children, depth);
    } else {
      CalleeRows(s, f, request, callee, depth);
      RowsOfMore(node.children, CalleeNode(s, f, request, callee), depth);
    }
  }

  lemma {:induction false} CalleeRows(s: ReplaySetup, f: Frame, request: Request, callee: Program, depth: nat)
    requires !Journal.IsPrecompile(request.to, s.numOfPrecompiles)
    ensures Rows(CalleeNode(s, f, request, callee), depth) == CallRows(s, f, request, callee, depth)
    decreases callee, 0
  {
    if s.chain.code(request.to).Some? {
      GraphIsOutline(s, NewNode(LabelOf(s, request)), FrameOf(InputOf(f, request)), callee.actions, depth + 1);
    }
  }

  /** The whole graph of a transaction, as its trace alone gives it. */
  lemma TransactionGraph(s: ReplaySetup, f: Frame, actions: seq<Action>)
    ensures var root := Grow(s, Root(f.address, Selector(f.input)), f, actions);
            var trace := Trace(s, f, actions);
            Rows(root, 0) == [Row(f.address, true, Selector(f.input), "root", 0, OwnCount(trace, 0, Read),
                                  OwnCount(trace, 0, Write), 1)]
                             + Outline(trace, 1)
  {
    GraphIsOutline(s, Root(f.address, Selector(f.input)), f, actions, 1);
  }

  // ---------------------------------------------------------------- rows determine the graph

  /** `rows` starts no deeper than `depth`. */
  predicate Closes(rows: seq<Row>, depth: nat) {
    rows == [] || rows[0].depth <= depth
  }

  /** Two graphs with the same rows are the same graph. */
  lemma {:induction false} RowsDetermineGraph(a: Node, b: Node, s: seq<Row>, t: seq<Row>, depth: nat)
    requires Rows(a, depth) + s == Rows(b, depth) + t && Closes(s, depth) && Closes(t, depth)
    ensures a == b && s == t
    decreases a
  {
    var ra, rb := Rows(a, depth), Rows(b, depth);
    assert (ra + s)[0] == ra[0] && (rb + t)[0] == rb[0];
    assert (ra + s)[1..] == RowsOfAll(a.children, depth + 1) + s;
    assert (rb + t)[1..] == RowsOfAll(b.children, depth + 1) + t;
    AllRowsDetermineGraphs(a.children, b.children, s, t, depth + 1);
  }

  lemma {:induction false} AllRowsDetermineGraphs(a: seq<Node>, b: seq<Node>, s: seq<Row>, t: seq<Row>, depth: nat)
    requires depth > 0 && RowsOfAll(a, depth) + s == RowsOfAll(b, depth) + t && Closes(s, depth - 1)
             && Closes(t, depth - 1)
    ensures a == b && s == t
    decreases a
  {
    StartsDeep(a, s, depth);
    StartsDeep(b, t, depth);
    if a == [] {
      assert [] + s == s && [] + t == t;
    } else {
      FirstOfAll(a, s, depth);
      FirstOfAll(b, t, depth);
      RowsDetermineGraph(a[0], b[0], RowsOfAll(a[1..], depth) + s, RowsOfAll(b[1..], depth) + t, depth);
      AllRowsDetermineGraphs(a[1..], b[1..], s, t, depth);
      assert a == [a[0]] + a[1..] && b == [b[0]] + b[1..];
    }
  }

  lemma FirstOfAll(nodes: seq<Node>, s: seq<Row>, depth: nat)
    requires nodes != [] && depth > 0 && Closes(s, depth - 1)
    ensures RowsOfAll(nodes, depth) + s == Rows(nodes[0], depth) + (RowsOfAll(nodes[1..], depth) + s)
    ensures Closes(RowsOfAll(nodes[1..], depth) + s, depth)
  {
    AssociateSeqs(Rows(nodes[0], depth), RowsOfAll(nodes[1..], depth), s);
    RowsClose(nodes[1..], s, depth);
  }

  /** Whether there are nodes left shows in the depth of the first row. */
  lemma StartsDeep(nodes: seq<Node>, s: seq<Row>, depth: nat)
    requires depth > 0 && Closes(s, depth - 1)
    ensures nodes != [] <==> RowsOfAll(nodes, depth) + s != [] && (RowsOfAll(nodes, depth) + s)[0].depth == depth
  {
    if nodes == [] {
      assert [] + s == s;
    } else {
      FirstRow(nodes, s, depth);
    }
  }

  lemma FirstRow(nodes: seq<Node>, t: seq<Row>, depth: nat)
    requires nodes != []
    ensures |RowsOfAll(nodes, depth)| > 0 && (RowsOfAll(nodes, depth) + t)[0].depth == depth
  {
  }

  lemma RowsClose(nodes: seq<Node>, s: seq<Row>, depth: nat)
    requires depth > 0 && Closes(s, depth - 1)
    ensures Closes(RowsOfAll(nodes, depth) + s, depth)
  {
    if nodes == [] {
      assert [] + s == s;
    } else {
      FirstRow(nodes, s, depth);
    }
  }

  // ---------------------------------------------------------------- invocation counts

  type InvokeCount = map<InvokeKey, nat>

  function AddInvoke(counts: InvokeCount, key: InvokeKey): InvokeCount {
    counts[key := (if key in counts then counts[key] else 0) + 1]
  }

  function Invokes(counts: InvokeCount, trace: seq<Event>): InvokeCount
    decreases trace
  {
    if trace == [] then counts
    else
      Invokes(if trace[0].Enter? && !trace[0].callee.isSame then AddInvoke(counts, KeyOf(trace[0].callee))
              else counts, trace[1..])
  }

  lemma {:induction false} InvokesConcat(counts: InvokeCount, t: seq<Event>, u: seq<Event>)
    ensures Invokes(counts, t + u) == Invokes(Invokes(counts, t), u)
    decreases t
  {
    if t == [] {
      assert t + u == u;
    } else {
      assert (t + u)[1..] == t[1..] + u;
      InvokesConcat(if t[0].Enter? && !t[0].callee.isSame then AddInvoke(counts, KeyOf(t[0].callee))
                    else counts, t[1..], u);
    }
  }

  /** The rows of calls into other DApps. */
  function ForeignRows(rows: seq<Row>): nat {
    if rows == [] then 0 else (if rows[0].isSame then 0 else 1) + ForeignRows(rows[1..])
  }

  /** The sum of all counts. */
  ghost function SumOfCounts(counts: InvokeCount): nat
    decreases |counts|
  {
    if counts == map[] then 0
    else
      var key :| key in counts;
      counts[key] + SumOfCounts(counts - {key})
  }

  lemma SumWithout(counts: InvokeCount, key: InvokeKey)
    requires key in counts
    ensures SumOfCounts(counts) == counts[key] + SumOfCounts(counts - {key})
    decreases |counts|
  {
    var first :| first in counts && SumOfCounts(counts) == counts[first] + SumOfCounts(counts - {first});
    if first != key {
      SumWithout(counts - {first}, key);
      SumWithout(counts - {key}, first);
      assert counts - {first} - {key} == counts - {key} - {first};
    }
  }

  lemma SumAfterInvoke(counts: InvokeCount, key: InvokeKey)
    ensures SumOfCounts(AddInvoke(counts, key)) == SumOfCounts(counts) + 1
  {
    var counts1 := AddInvoke(counts, key);
    SumWithout(counts1, key);
    assert counts1 - {key} == counts - {key};
    if key in counts {
      SumWithout(counts, key);
    } else {
      assert counts - {key} == counts;
    }
  }

  /** How often a function of another DApp was invoked. */
  function CountOf(counts: InvokeCount, key: InvokeKey): nat {
    if key in counts then counts[key] else 0
  }

  /** The calls of a trace into other DApps that a key stands for. */
  function CallsOf(trace: seq<Event>, key: InvokeKey): nat {
    if trace == [] then 0
    else (if trace[0].Enter? && !trace[0].callee.isSame && StandsFor(key, trace[0].callee) then 1 else 0)
         + CallsOf(trace[1..], key)
  }

  predicate StandsFor(key: InvokeKey, l: Label) {
    && key.contract == l.contract && key.selector == l.selector && key.dapp == l.info.dapp
    && if SaysUnknown(l.info.dapp) then key.unknownContract == Some(l.contract) else key.unknownContract.None?
  }

  /** Every function of every contract is counted apart. */
  lemma {:induction false} InvokesAreCalls(counts: InvokeCount, trace: seq<Event>, key: InvokeKey)
    ensures CountOf(Invokes(counts, trace), key) == CountOf(counts, key) + CallsOf(trace, key)
    decreases trace
  {
    if trace != [] {
      var e := trace[0];
      var counts1 := if e.Enter? && !e.callee.isSame then AddInvoke(counts, KeyOf(e.callee)) else counts;
      assert e.Enter? ==> (KeyOf(e.callee) == key <==> StandsFor(key, e.callee));
      InvokesAreCalls(counts1, trace[1..], key);
    }
  }

  lemma {:induction false} GrowKeepsLabel(s: ReplaySetup, node: Node, f: Frame, actions: seq<Action>)
    ensures var grown := Grow(s, node, f, actions);
            && grown == node.(children := grown.children, read := grown.read, write := grown.write)
            && node.children <= grown.children && node.read <= grown.read && node.write <= grown.write
    decreases actions
  {
    if actions != [] {
      var node1 := GrowBy(s, node, f, actions[0]);
      if ActionResult(s, actions[0]) == Continue {
        GrowKeepsLabel(s, node1, f, actions[1..]);
      }
    }
  }

  /** The node of a call names the contract, its DApp and the function, and tells if it is of the replayed DApp. */
  lemma NodeOfCall(s: ReplaySetup, f: Frame, r: Request, callee: Program)
    ensures var node, name := CalleeNode(s, f, r, callee), s.chain.dapp(r.to).dapp;
            && node.contract == r.to && node.dappName == name
            && node.selector == (if |r.input| < 4 then [0, 0, 0, 0] else r.input[..4])
            && (node.isSame <==> name == s.dapp && !SaysUnknown(name))
            && node.invoke == 1
  {
    GrowKeepsLabel(s, NewNode(LabelOf(s, r)), FrameOf(InputOf(f, r)), callee.actions);
  }

  /** Calls into other DApps, counted on the trace. */
  function ForeignEnters(trace: seq<Event>): nat {
    if trace == [] then 0 else (if trace[0].Enter? && !trace[0].callee.isSame then 1 else 0) + ForeignEnters(trace[1..])
  }

  lemma {:induction false} SumOfInvokes(counts: InvokeCount, trace: seq<Event>)
    ensures SumOfCounts(Invokes(counts, trace)) == SumOfCounts(counts) + ForeignEnters(trace)
    decreases trace
  {
    if trace != [] {
      if trace[0].Enter? && !trace[0].callee.isSame {
        SumAfterInvoke(counts, KeyOf(trace[0].callee));
        SumOfInvokes(AddInvoke(counts, KeyOf(trace[0].callee)), trace[1..]);
      } else {
        SumOfInvokes(counts, trace[1..]);
      }
    }
  }

  lemma {:induction false} ForeignEntersConcat(t: seq<Event>, u: seq<Event>)
    ensures ForeignEnters(t + u) == ForeignEnters(t) + ForeignEnters(u)
  {
    if t == [] {
      assert t + u == u;
    } else {
      assert (t + u)[1..] == t[1..] + u;
      ForeignEntersConcat(t[1..], u);
    }
  }

  lemma {:induction false} ForeignRowsConcat(a: seq<Row>, b: seq<Row>)
    ensures ForeignRows(a + b) == ForeignRows(a) + ForeignRows(b)
  {
    if a == [] {
      assert a + b == b;
    } else {
      assert (a + b)[1..] == a[1..] + b;
      ForeignRowsConcat(a[1..], b);
    }
  }

  /** The outline of a run has a row for each call of the trace. */
  lemma {:induction false} RowForEachCall(s: ReplaySetup, f: Frame, actions: seq<Action>, depth: nat)
    ensures ForeignRows(Outline(Trace(s, f, actions), depth)) == ForeignEnters(Trace(s, f, actions))
    decreases actions, 0
  {
    if actions != [] {
      TraceSplit(s, f, actions, []);
      RowForEachCallOfOne(s, f, actions[0], depth);
      if ActionResult(s, actions[0]) == Continue {
        var head, rest := TraceOf(s, f, actions[0]), Trace(s, f, actions[1..]);
        OutlineOfOne(s, f, actions[0], rest, depth);
        ForeignRowsConcat(Outline(head, depth), Outline(rest, depth));
        ForeignEntersConcat(head, rest);
        RowForEachCall(s, f, actions[1..], depth);
      }
    }
  }

  lemma {:induction false} RowForEachCallOfOne(s: ReplaySetup, f: Frame, action: Action, depth: nat)
    ensures ForeignRows(Outline(TraceOf(s, f, action), depth)) == ForeignEnters(TraceOf(s, f, action))
    decreases action, 1
  {
    match action
    case Sload(_) => OutlineSkips(Read, [], depth);
    case Sstore(_, _) => OutlineSkips(Write, [], depth);
    case FailedCall(scheme) => FailedCallSkipped(scheme, [], depth);
    case Call(request, callee) =>
      CallIsNoAccess(s, f, request, callee, depth);
      RowsOfOneCall(s, f, request, callee, depth);
    case _ =>
  }

  lemma {:induction false} RowsOfOneCall(s: ReplaySetup, f: Frame, request: Request, callee: Program, depth: nat)
    ensures ForeignRows(CallRows(s, f, request, callee, depth)) == ForeignEnters(TraceOf(s, f, Call(request, callee)))
    decreases callee, 0
  {
    var marks := CallMarks(f, request);
    var trace := TraceOf(s, f, Call(request, callee));
    MarksCountNothing(f, request, Read);
    if Journal.IsPrecompile(request.to, s.numOfPrecompiles) {
      assert trace == marks;
    } else {
      var body := BodyTrace(s, f, request, callee);
      if s.chain.code(request.to).Some? {
        RowForEachCall(s, FrameOf(InputOf(f, request)), callee.actions, depth + 1);
      }
      assert trace == marks + ([Enter(LabelOf(s, request))] + (body + [Exit]));
      ForeignEntersConcat(marks, [Enter(LabelOf(s, request))] + (body + [Exit]));
      EntersOfFrame(LabelOf(s, request), body);
      assert CallRows(s, f, request, callee, depth)[1..] == Outline(body, depth + 1);
    }
  }

  lemma EntersOfFrame(l: Label, body: seq<Event>)
    ensures ForeignEnters([Enter(l)] + (body + [Exit])) == (if l.isSame then 0 else 1) + ForeignEnters(body)
  {
    assert ([Enter(l)] + (body + [Exit]))[1..] == body + [Exit];
    ForeignEntersConcat(body, [Exit]);
    assert [Exit][1..] == [];
  }

  /** The invocation counts add up to the calls in the graph that leave the replayed DApp. */
  lemma InvokesAreForeignRows(s: ReplaySetup, f: Frame, actions: seq<Action>, root: Node)
    requires root == Grow(s, Root(f.address, Selector(f.input)), f, actions)
    ensures SumOfCounts(Invokes(map[], Trace(s, f, actions))) == ForeignRows(Rows(root, 0))
  {
    SumOfInvokes(map[], Trace(s, f, actions));
    RowForEachCall(s, f, actions, 1);
    TransactionGraph(s, f, actions);
    assert Rows(root, 0)[1..] == Outline(Trace(s, f, actions), 1);
  }

  // ---------------------------------------------------------------- proxies

  /** Storage contracts and logic contracts by each other, and whether a DELEGATECALL is marked. */
  datatype Proxies = Proxies(marked: bool, logics: map<Address, Address>, storages: map<Address, Address>)

  /** A marked call that passes its own selector on is taken for a proxy's. */
  function NoteEvent(p: Proxies, e: Event): Proxies {
    match e
    case Delegate => p.(marked := true)
    case Called(storage, logic, sameSelector) =>
      if p.marked && sameSelector then Proxies(false, p.logics[storage := logic], p.storages[logic := storage])
      else p.(marked := false)
    case _ => p
  }

  function NoteAll(p: Proxies, trace: seq<Event>): Proxies
    decreases trace
  {
    if trace == [] then p else NoteAll(NoteEvent(p, trace[0]), trace[1..])
  }

  lemma {:induction false} NoteAllConcat(p: Proxies, t: seq<Event>, u: seq<Event>)
    ensures NoteAll(p, t + u) == NoteAll(NoteAll(p, t), u)
    decreases t
  {
    if t == [] {
      assert t + u == u;
    } else {
      assert (t + u)[1..] == t[1..] + u;
      NoteAllConcat(NoteEvent(p, t[0]), t[1..], u);
    }
  }

  /** The mark is the last thing that bears on it. */
  predicate EndsMarked(trace: seq<Event>, before: bool) {
    if trace == [] then before
    else
      var n := |trace| - 1;
      trace[n].Delegate? || (!trace[n].Called? && EndsMarked(trace[..n], before))
  }

  /**
    A call is recorded as a proxy's exactly if its selectors agree and the last DELEGATECALL before
    it was not used up.
   */
  lemma ProxyIsRecorded(p: Proxies, trace: seq<Event>, e: Event)
    requires e.Called?
    ensures var noted := NoteAll(p, trace);
            NoteAll(p, trace + [e])
            == if EndsMarked(trace, p.marked) && e.sameSelector then
                 Proxies(false, noted.logics[e.storage := e.logic], noted.storages[e.logic := e.storage])
               else
                 noted.(marked := false)
  {
    MarkAtEnd(p, trace);
    NoteAllConcat(p, trace, [e]);
    assert [e][1..] == [];
    assert NoteAll(NoteAll(p, trace), [e]) == NoteAll(NoteEvent(NoteAll(p, trace), e), []);
  }

  lemma {:induction false} MarkAtEnd(p: Proxies, trace: seq<Event>)
    ensures NoteAll(p, trace).marked <==> EndsMarked(trace, p.marked)
    decreases |trace|
  {
    if trace != [] {
      var n := |trace| - 1;
      var last := [trace[n]];
      assert trace == trace[..n] + last && last[1..] == [];
      MarkAtEnd(p, trace[..n]);
      NoteAllConcat(p, trace[..n], last);
      assert NoteAll(NoteAll(p, trace[..n]), last) == NoteAll(NoteEvent(NoteAll(p, trace[..n]), trace[n]), []);
    }
  }

  /** A DELEGATECALL that fails before `call` makes the caller's next plain call a proxy's. */
  lemma StaleMark(s: ReplaySetup, f: Frame, request: Request, callee: Program)
    requires request.scheme != Evm.DelegateCall && Selector(f.input) == Selector(request.input)
    requires Journal.IsPrecompile(request.to, s.numOfPrecompiles)
    ensures var trace := Trace(s, f, [FailedCall(Evm.DelegateCall), Call(request, callee)]);
            NoteAll(NO_RECORDS.proxies, trace).logics == map[f.address := request.to]
  {
    var called := [CalledOf(f, request)];
    var actions := [FailedCall(Evm.DelegateCall), Call(request, callee)];
    assert actions[1..] == [Call(request, callee)] && actions[1..][1..] == [];
    assert TraceOf(s, f, Call(request, callee)) == called;
    assert Trace(s, f, actions[1..]) == called;
    assert Trace(s, f, actions) == [Delegate] + called;
    ProxyIsRecorded(NO_RECORDS.proxies, [Delegate], called[0]);
    assert NoteAll(NO_RECORDS.proxies, [Delegate]) == NoteAll(NoteEvent(NO_RECORDS.proxies, Delegate), []);
  }

  /** What the replay host records beside the graph. */
  datatype Records = Records(counts: InvokeCount, proxies: Proxies)

  const NO_RECORDS := Records(map[], Proxies(false, map[], map[]))

  function Record(r: Records, trace: seq<Event>): Records {
    Records(Invokes(r.counts, trace), NoteAll(r.proxies, trace))
  }

  lemma RecordConcat(r: Records, t: seq<Event>, u: seq<Event>)
    ensures Record(r, t + u) == Record(Record(r, t), u)
  {
    InvokesConcat(r.counts, t, u);
    NoteAllConcat(r.proxies, t, u);
  }

  lemma RecordNothing(r: Records, t: seq<Event>)
    requires forall e | e in t :: e.Read? || e.Write? || e.Exit?
    ensures Record(r, t) == r
    decreases t
  {
    if t != [] {
      assert t[0] in t && forall e | e in t[1..] :: e in t;
      RecordNothing(r, t[1..]);
    }
  }

  /** What `step` notes of an opcode. */
  function StepMarks(action: Action): seq<Event> {
    match action
    case Call(request, _) => DelegateMark(request.scheme)
    case FailedCall(scheme) => DelegateMark(scheme)
    case _ => []
  }

  /** Of other opcodes than calls the records know no more than that. */
  lemma StepTrace(s: ReplaySetup, f: Frame, action: Action, r: Records)
    requires !action.Call?
    ensures Record(r, TraceOf(s, f, action)) == Record(r, StepMarks(action))
  {
    if !action.FailedCall? {
      RecordNothing(r, TraceOf(s, f, action));
      RecordNothing(r, []);
    }
  }

  lemma RecordOne(r: Records, e: Event)
    ensures Record(r, [e])
         == Records(if e.Enter? && !e.callee.isSame then AddInvoke(r.counts, KeyOf(e.callee)) else r.counts,
                    NoteEvent(r.proxies, e))
  {
    var counts := if e.Enter? && !e.callee.isSame then AddInvoke(r.counts, KeyOf(e.callee)) else r.counts;
    assert [e][1..] == [];
    assert Invokes(r.counts, [e]) == Invokes(counts, []) == counts;
    assert NoteAll(r.proxies, [e]) == NoteAll(NoteEvent(r.proxies, e), []);
  }

  /** The records of a callee's frame: those of its start, then those of its body. */
  lemma FrameRecorded(r: Records, s: ReplaySetup, f: Frame, request: Request, callee: Program)
    ensures Record(Record(r, [Enter(LabelOf(s, request))]), BodyTrace(s, f, request, callee))
            == Record(r, FrameTrace(s, f, request, callee))
  {
    var enter, body := [Enter(LabelOf(s, request))], BodyTrace(s, f, request, callee);
    RecordConcat(r, enter, body);
    RecordConcat(r, enter + body, [Exit]);
    RecordOne(Record(r, enter + body), Exit);
  }

  /** The interpreter loop after `k` actions, which made `trace` and grew `node0` to `node`. */
  ghost predicate Underway(s: ReplaySetup, f: Frame, actions: seq<Action>, k: nat, result: InstructionResult,
                           node0: Node, node: Node, trace: seq<Event>) {
    && k <= |actions| && result in {Continue, FatalExternalError}
    && Grow(s, node0, f, actions) == (if result == Continue then Grow(s, node, f, actions[k..]) else node)
    && Trace(s, f, actions) == trace + (if result == Continue then Trace(s, f, actions[k..]) else [])
    && ActionsResult(s, actions) == (if result == Continue then ActionsResult(s, actions[k..]) else result)
  }

  lemma Started(s: ReplaySetup, f: Frame, actions: seq<Action>, node: Node)
    ensures Underway(s, f, actions, 0, Continue, node, node, [])
  {
    assert actions[0..] == actions;
  }

  lemma FirstAction(s: ReplaySetup, node: Node, f: Frame, actions: seq<Action>)
    requires actions != []
    ensures var node1 := GrowBy(s, node, f, actions[0]);
            Grow(s, node, f, actions)
            == if ActionResult(s, actions[0]) == Continue then Grow(s, node1, f, actions[1..]) else node1
    ensures ActionsResult(s, actions)
         == if ActionResult(s, actions[0]) == Continue then ActionsResult(s, actions[1..]) else FatalExternalError
  {
  }

  lemma OneTurn(s: ReplaySetup, f: Frame, actions: seq<Action>, k: nat, node0: Node, node: Node, trace: seq<Event>)
    requires Underway(s, f, actions, k, Continue, node0, node, trace) && k < |actions|
    ensures Underway(s, f, actions, k + 1, ActionResult(s, actions[k]), node0, GrowBy(s, node, f, actions[k]),
                     trace + TraceOf(s, f, actions[k]))
  {
    var rest, next := actions[k..], actions[k + 1..];
    assert rest[1..] == next && rest[0] == actions[k];
    FirstAction(s, node, f, rest);
    TraceSplit(s, f, rest, []);
    AssociateSeqs(trace, TraceOf(s, f, actions[k]), if ActionResult(s, actions[k]) == Continue then Trace(s, f, next)
                                                    else []);
    assert TraceOf(s, f, actions[k]) + [] == TraceOf(s, f, actions[k]);
  }

  lemma Finished(s: ReplaySetup, f: Frame, actions: seq<Action>, k: nat, result: InstructionResult,
                 node0: Node, node: Node, trace: seq<Event>)
    requires Underway(s, f, actions, k, result, node0, node, trace) && (result == Continue ==> k == |actions|)
    ensures Grow(s, node0, f, actions) == node && Trace(s, f, actions) == trace && ActionsResult(s, actions) == result
  {
    assert trace + [] == trace;
  }
}
