/**
  What the detector does not disturb. Taint records belong to one frame; a
  replay gives back the context it took; and, leaks apart, a detected run ends
  in the storage, balances and result of a plain run of the same program, which
  knows of no detector. `Observations` says when its contracts see the same.
 */
module Transparency {
  import opened Words
  import opened InstructionResults
  import opened Detector
  import opened Detections
  import Journal
  import Evm

  // ---------------------------------------------------------------- taint records

  /** The truncations of the values that `actions` compare. */
  function Compared(actions: seq<Action>): set<Address> {
    if actions == [] then {}
    else
      (if actions[0].Compare? then {Low160(actions[0].left), Low160(actions[0].right)} else {}) + Compared(actions[1..])
  }

  /** The truncations of the values that a frame loads itself. */
  function Loaded(s: Setup, h: Host, f: Frame, actions: seq<Action>): set<Address>
    decreases actions
  {
    if actions == [] then {}
    else
      var own := if actions[0].Sload? then {Low160(SlotValue(s, h, f.address, actions[0].key))} else {};
      var (h1, result) := RunAction(s, h, f, actions[0]);
      if result == Continue then own + Loaded(s, h1, f, actions[1..]) else own
  }

  /** How many of `actions` are performed before the run stops. */
  function Performed(s: Setup, h: Host, f: Frame, actions: seq<Action>): (n: nat)
    ensures n <= |actions|
    decreases actions
  {
    if actions == [] then 0
    else
      var (h1, result) := RunAction(s, h, f, actions[0]);
      if result == Continue then 1 + Performed(s, h1, f, actions[1..]) else 1
  }

  lemma ComparedFirst(actions: seq<Action>, n: nat)
    requires 0 < n <= |actions|
    ensures Compared(actions[..n]) == Compared([actions[0]]) + Compared(actions[1..][..n - 1])
  {
    assert actions[..n][1..] == actions[1..][..n - 1];
    assert [actions[0]][1..] == [];
  }

  /** How the run of a list starts. */
  lemma FirstOf(s: Setup, h: Host, f: Frame, actions: seq<Action>)
    requires actions != []
    ensures var (h1, result) := RunAction(s, h, f, actions[0]);
            && (result == Continue ==>
                  && RunActions(s, h, f, actions) == RunActions(s, h1, f, actions[1..])
                  && Performed(s, h, f, actions) == 1 + Performed(s, h1, f, actions[1..]))
            && (result != Continue ==> RunActions(s, h, f, actions) == (h1, result) && Performed(s, h, f, actions) == 1)
  {
  }

  lemma OneAction(s: Setup, h: Host, f: Frame, action: Action)
    ensures var h' := RunAction(s, h, f, action).0;
            && h'.context.compareRecord == h.context.compareRecord + Compared([action])
            && h'.context.sloadRecord == h.context.sloadRecord
               + (if action.Sload? then {Low160(SlotValue(s, h, f.address, action.key))} else {})
  {
    assert [action][1..] == [];
    match action
    case Call(request, callee) => CallKeepsContext(s, h, f, request, callee);
    case Sload(key) => LoadRecords(s, h, f, key);
    case Compare(left, right) => CompareRecords(s, h, f, left, right);
    case _ => OtherKeepsContext(s, h, f, action);
  }

  lemma LoadRecords(s: Setup, h: Host, f: Frame, key: U256)
    ensures RunAction(s, h, f, Sload(key)).0 == NoteLoaded(h, SlotValue(s, h, f.address, key))
  {
  }

  lemma CompareRecords(s: Setup, h: Host, f: Frame, left: U256, right: U256)
    ensures RunAction(s, h, f, Compare(left, right)).0 == NoteCompared(h, left, right)
  {
  }

  lemma OtherKeepsContext(s: Setup, h: Host, f: Frame, action: Action)
    requires action.Sstore? || action.Balance? || action.FailedCall?
    ensures RunAction(s, h, f, action).0.context == h.context
  {
  }

  lemma CallKeepsContext(s: Setup, h: Host, f: Frame, request: Request, callee: Program)
    ensures RunAction(s, h, f, Call(request, callee)).0.context == h.context
  {
  }

  /** The records hold what this frame compared and loaded, whatever nested calls and replays did. */
  lemma {:induction false} RecordsAreFrameLocal(s: Setup, h: Host, f: Frame, actions: seq<Action>)
    ensures var (h', result) := RunActions(s, h, f, actions);
            var n := Performed(s, h, f, actions);
            && (result == Continue ==> n == |actions|)
            && h'.context.compareRecord == h.context.compareRecord + Compared(actions[..n])
            && h'.context.sloadRecord == h.context.sloadRecord + Loaded(s, h, f, actions)
    decreases actions
  {
    if actions != [] {
      var (h1, result) := RunAction(s, h, f, actions[0]);
      FirstOf(s, h, f, actions);
      OneAction(s, h, f, actions[0]);
      ComparedFirst(actions, Performed(s, h, f, actions));
      if result == Continue {
        RecordsAreFrameLocal(s, h1, f, actions[1..]);
      } else {
        assert actions[1..][..0] == [];
      }
    }
  }

  /** In a callee, at each step, the records are exactly what it compared and loaded so far. */
  lemma CalleeRecords(s: Setup, h: Host, input: CallInput, actions: seq<Action>)
    ensures var h0 := EnterCallee(s, h, input);
            var (h', result) := RunActions(s, h0, FrameOf(input), actions);
            && (result == Continue ==> h'.context.compareRecord == Compared(actions))
            && h'.context.sloadRecord == Loaded(s, h0, FrameOf(input), actions)
            && h'.context.env == h0.context.env && h'.context.callContext == Some(input.context)
              && h'.callDepth == h.callDepth
  {
    var h0 := EnterCallee(s, h, input);
    RecordsAreFrameLocal(s, h0, FrameOf(input), actions);
    assert actions[..|actions|] == actions;
  }

  // ---------------------------------------------------------------- one replay

  /** The victim's own transfer, made before the balances are saved, is the one trace a replay leaves. */
  function VictimFunded(s: Setup, h: Host): map<Address, U256> {
    Fund(s, h.(isExecuteVictimFunction := true), s.victim.from, s.victim.to, s.victim.value, s.victim.value).balances
  }

  lemma FundedExactly(s: Setup, h: Host)
    ensures VictimFunded(s, h) == h.balances <==> s.victim.value == 0
  {
    var h0 := h.(isExecuteVictimFunction := true);
    if s.victim.value != 0 {
      var from, to := s.victim.from, s.victim.to;
      var h1 := FetchBalance(s, FetchBalance(s, h0, from), to);
      var sent := SendBalance(h1.balances, from, to, s.victim.value);
      if from in h.balances {
        assert h1.balances[from] == h.balances[from];
        assert sent[from] != h.balances[from];
      } else {
        assert from in sent;
      }
    }
  }

  /** A replay gives back everything but flags, what it noted, and the victim's transfer. */
  lemma ReplayIsTransparent(s: Setup, h: Host, context: CallContext)
    requires h.isDiffDapp
    ensures var h' := Replay(s, h, context).0;
            && h' == h.(balances := VictimFunded(s, h), isExecuteVictimFunction := false, noNeedForTest := true,
                        fromArgs := false,
                        bugHit := h'.bugHit, history := h'.history)
            && (h'.balances == h.balances <==> s.victim.value == 0)
  {
    FundedExactly(s, h);
    var h1 := Fund(s, h.(isExecuteVictimFunction := true), s.victim.from, s.victim.to, s.victim.value, s.victim.value);
    var h2 := EnterReplay(s, h1, context);
    if s.victim.input != [] {
      InsideProgram(s, h2, VictimFrame(s), CodeAt(s, s.victim.to, s.victim.program));
    }
  }

  /**
    A cross-DApp call gives its callee's result and data, unless it replays a
    victim without input; and it leaves the storage its callee left.
   */
  lemma CrossCallResult(s: Setup, h: Host, input: CallInput, callee: Program)
    requires !h.isDiffDapp
    ensures var (h1, result, output) := RunCallee(s, h, input, callee);
            var (h', result', output') := CrossDappCall(s, h, input, callee);
            && ((result', output') == (result, output)
                <==> !(Replays(h1, result, input.gasLimit) && s.victim.input == []))
            && (Replays(h1, result, input.gasLimit) && s.victim.input == []
                ==> (result', output') == (Continue, s.victim.text))
            && h'.storage == h1.storage
            && (h'.balances == h1.balances <==> !Replays(h1, result, input.gasLimit) || s.victim.value == 0)
  {
    var (h1, result, _) := RunCallee(s, h, input, callee);
    if Replays(h1, result, input.gasLimit) {
      ReplayIsTransparent(s, h1, input.context);
    }
  }

  // ---------------------------------------------------------------- the plain run

  /** What contracts can observe. */
  datatype World = World(storage: ContractStorage, balances: map<Address, U256>)

  function WorldFetch(s: Setup, w: World, a: Address): (r: World)
    ensures r == w.(balances := r.balances) && r.balances.Keys == w.balances.Keys + {a}
  {
    if a in w.balances then w else w.(balances := w.balances[a := s.chain.balance(false, a)])
  }

  function WorldFund(s: Setup, w: World, input: CallInput): World {
    var context := input.context;
    if context.apparentValue == 0 then w
    else
      var w1 := WorldFetch(s, WorldFetch(s, w, context.caller), context.address);
      w1.(balances := SendBalance(w1.balances, context.caller, context.address, input.transferValue))
  }

  function PlainActions(s: Setup, w: World, f: Frame, actions: seq<Action>): (World, InstructionResult)
    decreases actions
  {
    if actions == [] then (w, Continue)
    else
      var (w1, result) := PlainAction(s, w, f, actions[0]);
      if result == Continue then PlainActions(s, w1, f, actions[1..]) else (w1, result)
  }

  function PlainProgram(s: Setup, w: World, f: Frame, p: Program): (World, InstructionResult, Bytes)
    decreases p
  {
    var (w1, result) := PlainActions(s, w, f, p.actions);
    if result == Continue then (w1, p.exit, p.output) else (w1, result, [])
  }

  function PlainAction(s: Setup, w: World, f: Frame, action: Action): (World, InstructionResult)
    decreases action
  {
    match action
    case Sstore(key, value) => (w.(storage := Store(w.storage, f.address, key, value)), Continue)
    case Balance(a) => (WorldFetch(s, w, a), Continue)
    case FailedCall(_) => (w, Continue)
    case Call(request, callee) =>
      var input := InputOf(f, request);
      if Journal.IsPrecompile(request.to, s.numOfPrecompiles) then (w, AfterCall(CallPrecompile(request).0, false))
      else
        var w1 := WorldFund(s, w, input);
        if s.chain.code(input.context.codeAddress).None? then (w1, Continue)
        else
          var (w2, result, _) := PlainProgram(s, w1, FrameOf(input), callee);
          (w2, AfterCall(result, false))
    case _ => (w, Continue)
  }

  /** The host holds the storage of `w`, and its balances unless victims move ether. */
  ghost predicate Holds(s: Setup, h: Host, w: World) {
    && !h.isExecuteVictimFunction
    && h.storage == w.storage
    && (s.victim.value == 0 ==> h.balances == w.balances)
  }

  /** The detected run ended as the plain one did, or with a leak. */
  ghost predicate SameEnd(s: Setup, h: Host, result: InstructionResult, w: World, result': InstructionResult) {
    result == CrossContractControlLeak || (result == result' && Holds(s, h, w))
  }

  lemma {:induction false} SameActions(s: Setup, h: Host, w: World, f: Frame, actions: seq<Action>)
    requires Holds(s, h, w)
    ensures var (h', result) := RunActions(s, h, f, actions);
            var (w', result') := PlainActions(s, w, f, actions);
            SameEnd(s, h', result, w', result')
    decreases Mode(h), actions
  {
    if actions != [] {
      SameAction(s, h, w, f, actions[0]);
      var (h1, result) := RunAction(s, h, f, actions[0]);
      if result == Continue {
        SameActions(s, h1, PlainAction(s, w, f, actions[0]).0, f, actions[1..]);
      }
    }
  }

  /** Leaks apart, the detector does not change what a program stores, pays, results in or returns. */
  lemma {:induction false} DetectorIsTransparent(s: Setup, h: Host, w: World, f: Frame, p: Program)
    requires Holds(s, h, w)
    ensures var (h', result, output) := RunProgram(s, h, f, p);
            var (w', result', output') := PlainProgram(s, w, f, p);
            SameEnd(s, h', result, w', result') && (result != CrossContractControlLeak ==> output == output')
    decreases Mode(h), p, 0
  {
    SameActions(s, h, w, f, p.actions);
  }

  lemma {:induction false} SameAction(s: Setup, h: Host, w: World, f: Frame, action: Action)
    requires Holds(s, h, w)
    ensures var (h', result) := RunAction(s, h, f, action);
            var (w', result') := PlainAction(s, w, f, action);
            SameEnd(s, h', result, w', result')
    decreases Mode(h), action
  {
    if action.Call? {
      SameCall(s, h, w, f, action.request, action.callee);
    }
  }

  /** `h` seen from another frame. */
  lemma HoldsElsewhere(s: Setup, h: Host, w: World, h': Host)
    requires Holds(s, h, w) && h' == h.(fromArgs := h'.fromArgs, callDepth := h'.callDepth)
    ensures Holds(s, h', w)
  {
  }

  lemma PlainCallIs(s: Setup, w: World, f: Frame, request: Request, callee: Program)
    requires !Journal.IsPrecompile(request.to, s.numOfPrecompiles)
    ensures var input := InputOf(f, request);
            var (w', result, _) := PlainCallee(s, WorldFund(s, w, input), input, callee);
            PlainAction(s, w, f, Call(request, callee)).0 == w'
            && PlainAction(s, w, f, Call(request, callee)).1 == AfterCall(result, false)
  {
  }

  lemma EnteredCallIs(s: Setup, h: Host, f: Frame, request: Request, callee: Program, h2: Host)
    requires !h.isExecuteVictimFunction && !Journal.IsPrecompile(request.to, s.numOfPrecompiles)
    requires h2 == Entered(s, h, f, InputOf(f, request))
    ensures var r, called := RunCall(s, h, f, request, callee), DivideCall(s, h2, InputOf(f, request), callee);
            && called.0.callDepth > 0 && r.0 == called.0.(callDepth := called.0.callDepth - 1)
            && r.1 == AfterCall(called.1, false)
  {
    var r := DivideCall(s, h2, InputOf(f, request), callee);
    HostCallIs(s, h, f, request, callee, h2, r.0, r.1);
    NoHits(s, h, f, request);
    RunCallIs(s, h, f, request, callee, r.1, false);
  }

  lemma NoHits(s: Setup, h: Host, f: Frame, request: Request)
    requires !h.isExecuteVictimFunction
    ensures !CallHits(s, h, f, request)
  {
  }

  lemma SameOnReturn(s: Setup, h: Host, reason: InstructionResult, plain: (World, InstructionResult), h': Host)
    requires SameEnd(s, h, AfterCall(reason, false), plain.0, plain.1) && h' == h.(callDepth := h'.callDepth)
    ensures SameEnd(s, h', AfterCall(reason, false), plain.0, plain.1)
  {
  }

  lemma {:induction false} SameCall(s: Setup, h: Host, w: World, f: Frame, request: Request, callee: Program)
    requires Holds(s, h, w)
    ensures var (h', result) := RunCall(s, h, f, request, callee);
            var (w', result') := PlainAction(s, w, f, Call(request, callee));
            SameEnd(s, h', result, w', result')
    decreases Mode(h), callee, 5
  {
    if !Journal.IsPrecompile(request.to, s.numOfPrecompiles) {
      var h2 := Entered(s, h, f, InputOf(f, request));
      EnteredCallIs(s, h, f, request, callee, h2);
      PlainCallIs(s, w, f, request, callee);
      SameEntered(s, h, w, InputOf(f, request), callee, h2);
    }
  }

  lemma {:induction false} SameEntered(s: Setup, h: Host, w: World, input: CallInput, callee: Program, h2: Host)
    requires Holds(s, h, w) && h2 == h.(fromArgs := h2.fromArgs, callDepth := h.callDepth + 1)
    ensures var (h3, reason, _) := DivideCall(s, h2, input, callee);
            var (w', result, _) := PlainCallee(s, WorldFund(s, w, input), input, callee);
            h3.callDepth > 0 && SameEnd(s, h3.(callDepth := h3.callDepth - 1), AfterCall(reason, false), w',
                                        AfterCall(result, false))
    decreases Mode(h), callee, 4
  {
    HoldsElsewhere(s, h, w, h2);
    SameDivide(s, h2, w, input, callee);
    var (h3, reason, _) := DivideCall(s, h2, input, callee);
    var (w', result, _) := PlainCallee(s, WorldFund(s, w, input), input, callee);
    SameOnReturn(s, h3, reason, (w', AfterCall(result, false)), h3.(callDepth := h3.callDepth - 1));
  }

  /** The callee as the plain run performs it. */
  function PlainCallee(s: Setup, w: World, input: CallInput, callee: Program): (World, InstructionResult, Bytes) {
    PlainProgram(s, w, FrameOf(input), CodeAt(s, input.context.codeAddress, callee))
  }

  /**
    What the caller's interpreter sees of a call: a callee with code, and a victim with input,
    leave its result and data.
   */
  ghost predicate SameSeen(s: Setup, h: Host, seen: (InstructionResult, Bytes), w: World,
                           plain: (InstructionResult, Bytes), a: Address) {
    && SameEnd(s, h, AfterCall(seen.0, false), w, AfterCall(plain.0, false))
    && (seen.0 != CrossContractControlLeak && s.chain.code(a).Some? && s.victim.input != [] ==> seen == plain)
  }

  lemma {:induction false} SameDivide(s: Setup, h: Host, w: World, input: CallInput, callee: Program)
    requires Holds(s, h, w)
    ensures var (h', result, output) := DivideCall(s, h, input, callee);
            var (w', result', output') := PlainCallee(s, WorldFund(s, w, input), input, callee);
            SameSeen(s, h', (result, output), w', (result', output'), input.context.codeAddress)
    decreases Mode(h), callee, 3
  {
    HoldsEntered(s, h, w, input);
    SameContract(s, EnterCallee(s, h, input), WorldFund(s, w, input), input, callee);
    var called := ContractCall(s, EnterCallee(s, h, input), input, callee);
    var plain := PlainCallee(s, WorldFund(s, w, input), input, callee);
    SeenInContext(s, called.0, (called.1, called.2), plain.0, (plain.1, plain.2), input.context.codeAddress,
                  called.0.(context := h.context));
  }

  lemma FundedAlike(s: Setup, h: Host, w: World, input: CallInput)
    requires !h.isExecuteVictimFunction && h.balances == w.balances
    ensures EnterCallee(s, h, input).balances == WorldFund(s, w, input).balances
  {
    var context := input.context;
    if context.apparentValue != 0 {
      var h0 := EnterContext(h, input);
      FetchedAlike(s, h0, w, context.caller);
      FetchedAlike(s, FetchBalance(s, h0, context.caller), WorldFetch(s, w, context.caller), context.address);
    }
  }

  lemma FetchedAlike(s: Setup, h: Host, w: World, a: Address)
    requires !h.isExecuteVictimFunction && h.balances == w.balances
    ensures FetchBalance(s, h, a).balances == WorldFetch(s, w, a).balances
  {
  }

  lemma EnteredKeeps(s: Setup, h: Host, w: World, input: CallInput)
    ensures EnterCallee(s, h, input).storage == h.storage && WorldFund(s, w, input).storage == w.storage
  {
  }

  lemma HoldsEntered(s: Setup, h: Host, w: World, input: CallInput)
    requires Holds(s, h, w)
    ensures Holds(s, EnterCallee(s, h, input), WorldFund(s, w, input))
  {
    EnteredKeeps(s, h, w, input);
    if s.victim.value == 0 {
      FundedAlike(s, h, w, input);
    }
  }

  lemma SeenInContext(s: Setup, h: Host, seen: (InstructionResult, Bytes), w: World, plain: (InstructionResult, Bytes),
                      a: Address, h': Host)
    requires SameSeen(s, h, seen, w, plain, a) && h' == h.(context := h'.context)
    ensures SameSeen(s, h', seen, w, plain, a)
  {
  }

  lemma {:induction false} SameContract(s: Setup, h: Host, w: World, input: CallInput, callee: Program)
    requires Holds(s, h, w)
    ensures var (h', result, output) := ContractCall(s, h, input, callee);
            var (w', result', output') := PlainCallee(s, w, input, callee);
            SameSeen(s, h', (result, output), w', (result', output'), input.context.codeAddress)
    decreases Mode(h), callee, 2
  {
    if WithinDapp(s, h, input) {
      SameSameDapp(s, h, w, input, callee);
    } else {
      SameCross(s, Crossing(h), w, input, callee);
    }
  }

  lemma {:induction false} SameSameDapp(s: Setup, h: Host, w: World, input: CallInput, callee: Program)
    requires Holds(s, h, w)
    ensures var (h', result, output) := SameDappCall(s, h, input, callee);
            var (w', result', output') := PlainCallee(s, w, input, callee);
            SameSeen(s, h', (result, output), w', (result', output'), input.context.codeAddress)
    decreases Mode(h), callee, 1
  {
    if s.chain.code(input.context.codeAddress).Some? {
      DetectorIsTransparent(s, h, w, FrameOf(input), callee);
    }
  }

  lemma {:induction false} SameCallee(s: Setup, h: Host, w: World, input: CallInput, callee: Program)
    requires Holds(s, h, w) && !h.isDiffDapp
    ensures var (h', result, output) := RunCallee(s, h, input, callee);
            var (w', result', output') := PlainCallee(s, w, input, callee);
            Holds(s, h', w') && result == result' && output == output'
    decreases Mode(h), callee, 0
  {
    var h1 := EnterDiff(h, input);
    DetectorIsTransparent(s, h1, w, FrameOf(input), CodeAt(s, input.context.codeAddress, callee));
  }

  lemma {:induction false} SameCross(s: Setup, h: Host, w: World, input: CallInput, callee: Program)
    requires Holds(s, h, w) && !h.isDiffDapp
    ensures var (h', result, output) := CrossDappCall(s, h, input, callee);
            var (w', result', output') := PlainCallee(s, w, input, callee);
            SameSeen(s, h', (result, output), w', (result', output'), input.context.codeAddress)
    decreases Mode(h), callee, 1
  {
    SameCallee(s, h, w, input, callee);
    CrossCallResult(s, h, input, callee);
    var (w', result', output') := PlainCallee(s, w, input, callee);
    CrossHolds(s, h, w', input, callee);
    var (h', result, output) := CrossDappCall(s, h, input, callee);
    SeenAs(s, h', (result, output), w', (result', output'), input.context.codeAddress);
  }

  lemma SeenAs(s: Setup, h: Host, seen: (InstructionResult, Bytes), w: World, plain: (InstructionResult, Bytes),
               a: Address)
    requires Holds(s, h, w)
    requires seen == plain || (s.victim.input == [] && seen.0 == Continue && plain.0.IsOk())
    ensures SameSeen(s, h, seen, w, plain, a)
  {
  }

  lemma CrossHolds(s: Setup, h: Host, w: World, input: CallInput, callee: Program)
    requires !h.isDiffDapp && !h.isExecuteVictimFunction && Holds(s, RunCallee(s, h, input, callee).0, w)
    ensures Holds(s, CrossDappCall(s, h, input, callee).0, w)
  {
    CrossCallResult(s, h, input, callee);
  }

  /** A whole transaction, leaks apart, ends as it would without a detector. */
  lemma TransactionIsTransparent(s: Setup, h: Host, tx: TargetTx)
    requires !h.isExecuteVictimFunction && s.chain.code(tx.to).Some?
    ensures var (h', result, output) := Execute(s, h, tx);
            var input := CallInput(tx.to, tx.value, tx.input, U64_MAX,
                                   CallContext(tx.to, tx.from, tx.to, tx.value, Evm.Call));
            var (w', result', output') := PlainProgram(s, WorldFund(s, World(map[], h.balances), input),
                                                       FrameOf(input), tx.program);
            SameEnd(s, h', result, w', result') && (result != CrossContractControlLeak ==> output == output')
  {
    var input := CallInput(tx.to, tx.value, tx.input, U64_MAX, CallContext(tx.to, tx.from, tx.to, tx.value, Evm.Call));
    var h1 := Fund(s, StartTransaction(h, tx), tx.from, tx.to, tx.value, tx.value);
    DetectorIsTransparent(s, h1, WorldFund(s, World(map[], h.balances), input), FrameOf(input), tx.program);
  }
}
