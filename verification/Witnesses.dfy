/**
  The other half of the witness: what a run performs decides whether a replay
  hits the target and whether a leak is reported.
 */
module Witnesses {
  import opened Words
  import opened InstructionResults
  import opened Detector
  import opened Detections
  import Journal
  import Evm

  // ---------------------------------------------------------------- what is performed

  datatype Deed = TargetCall | AnyStore

  /** A store, or a call of the target function of the origin; too short an input selects zeroes. */
  predicate Does(s: Setup, f: Frame, action: Action, deed: Deed) {
    match deed
    case AnyStore => action.Sstore?
    case TargetCall =>
      && action.Call? && !Journal.IsPrecompile(action.request.to, s.numOfPrecompiles)
      && s.origin == (if action.request.scheme == Evm.CallCode then f.address else action.request.to)
      && s.targetDependency == (if |action.request.input| < 4 then [0, 0, 0, 0] else action.request.input[..4])
  }

  /** Whether the deed is performed before these actions end, here or in a callee run as part of the same call. */
  predicate Performs(s: Setup, h: Host, f: Frame, actions: seq<Action>, deed: Deed)
    decreases actions
  {
    actions != [] &&
    (|| Achieves(s, h, f, actions[0], deed)
     || (RunAction(s, h, f, actions[0]).1 == Continue
         && Performs(s, RunAction(s, h, f, actions[0]).0, f, actions[1..], deed)))
  }

  predicate Achieves(s: Setup, h: Host, f: Frame, action: Action, deed: Deed)
    decreases action
  {
    || Does(s, f, action, deed)
    || (&& action.Call? && !Journal.IsPrecompile(action.request.to, s.numOfPrecompiles)
        && s.chain.code(action.request.to).Some?
        && var input := InputOf(f, action.request);
           Performs(s, EnterCallee(s, Entered(s, h, f, input), input), FrameOf(input), action.callee.actions, deed))
  }

  /**
    The frame a callee runs in: a DELEGATECALL keeps the account, the caller and the
    value of its frame, a CALLCODE keeps the account, and the code is always the
    callee's.
   */
  lemma CalleeFrame(f: Frame, r: Request)
    ensures var g := FrameOf(InputOf(f, r));
            && g.codeAddress == r.to && g.input == r.input
            && g.address == (if r.scheme in {Evm.CallCode, Evm.DelegateCall} then f.address else r.to)
            && g.caller == (if r.scheme == Evm.DelegateCall then f.caller else f.address)
            && g.value == if r.scheme == Evm.DelegateCall then f.value
                          else if r.scheme == Evm.StaticCall then 0 else r.value
  {
  }

  // ---------------------------------------------------------------- hits

  /** The run of a victim, or of a part of it. */
  ghost predicate InReplay(h: Host) {
    h.isDiffDapp && h.isExecuteVictimFunction
  }

  /** In a replay `bugHit` ends set exactly if it was set or the target function was called. */
  lemma {:induction false} HitIfCalled(s: Setup, h: Host, f: Frame, actions: seq<Action>)
    requires InReplay(h)
    ensures RunActions(s, h, f, actions).0.bugHit <==> h.bugHit || Performs(s, h, f, actions, TargetCall)
    decreases actions
  {
    if actions != [] {
      HitIfCalledBy(s, h, f, actions[0]);
      var (h1, result) := RunAction(s, h, f, actions[0]);
      if result == Continue {
        HitIfCalled(s, h1, f, actions[1..]);
      }
    }
  }

  lemma {:induction false} HitIfCalledBy(s: Setup, h: Host, f: Frame, action: Action)
    requires InReplay(h)
    ensures RunAction(s, h, f, action).0.bugHit <==> h.bugHit || Achieves(s, h, f, action, TargetCall)
    decreases action
  {
    if !action.Call? || Journal.IsPrecompile(action.request.to, s.numOfPrecompiles) {
      HitsNothing(s, h, f, action);
    } else {
      var input := InputOf(f, action.request);
      var h2 := EnterCallee(s, Entered(s, h, f, input), input);
      TargetIsHit(s, h, f, action.request, action.callee, h2);
      CallPerforms(s, h, f, action.request, action.callee, h2);
      if s.chain.code(action.request.to).Some? {
        HitIfCalled(s, h2, FrameOf(input), action.callee.actions);
      }
      AchievesIs(s, h, f, action.request, action.callee, h2, TargetCall);
    }
  }

  lemma HitsNothing(s: Setup, h: Host, f: Frame, action: Action)
    requires !action.Call? || Journal.IsPrecompile(action.request.to, s.numOfPrecompiles)
    ensures RunAction(s, h, f, action).0.bugHit == h.bugHit && !Achieves(s, h, f, action, TargetCall)
  {
    if action.Call? {
      assert RunCall(s, h, f, action.request, action.callee).0 == h;
    }
  }

  lemma AchievesIs(s: Setup, h: Host, f: Frame, request: Request, callee: Program, h2: Host, deed: Deed)
    requires !Journal.IsPrecompile(request.to, s.numOfPrecompiles)
    requires h2 == EnterCallee(s, Entered(s, h, f, InputOf(f, request)), InputOf(f, request))
    ensures Achieves(s, h, f, Call(request, callee), deed)
            <==> || Does(s, f, Call(request, callee), deed)
                 || (s.chain.code(request.to).Some?
                     && Performs(s, h2, FrameOf(InputOf(f, request)), callee.actions, deed))
  {
  }

  /** A call run as part of the call it is made in: the run of its callee's actions, if it has code. */
  lemma CallPerforms(s: Setup, h: Host, f: Frame, request: Request, callee: Program, h2: Host)
    requires !Journal.IsPrecompile(request.to, s.numOfPrecompiles)
    requires h2 == EnterCallee(s, Entered(s, h, f, InputOf(f, request)), InputOf(f, request))
    requires h2.isDiffDapp || h2.bugHit
    ensures var ran := RunActions(s, h2, FrameOf(InputOf(f, request)), callee.actions);
            var (h', result) := RunCall(s, h, f, request, callee);
            && h'.bugHit == (if s.chain.code(request.to).Some? then ran.0.bugHit else h2.bugHit)
            && (!CallHits(s, h, f, request) ==>
                  (result == CrossContractControlLeak
                   <==> s.chain.code(request.to).Some? && ran.1 == CrossContractControlLeak))
  {
    var input := InputOf(f, request);
    var h1 := Entered(s, h, f, input);
    DividePerforms(s, h1, input, callee, h2);
    var r := DivideCall(s, h1, input, callee);
    HostCallIs(s, h, f, request, callee, h1, r.0, r.1);
    RunCallIs(s, h, f, request, callee, r.1, CallHits(s, h, f, request));
  }

  lemma DividePerforms(s: Setup, h: Host, input: CallInput, callee: Program, h2: Host)
    requires h2 == EnterCallee(s, h, input) && (h2.isDiffDapp || h2.bugHit)
    ensures var ran := RunActions(s, h2, FrameOf(input), callee.actions);
            var (h', result, _) := DivideCall(s, h, input, callee);
            && h'.bugHit == (if s.chain.code(input.context.codeAddress).Some? then ran.0.bugHit else h2.bugHit)
            && (result == CrossContractControlLeak
                <==> s.chain.code(input.context.codeAddress).Some? && ran.1 == CrossContractControlLeak)
  {
    ProgramPerforms(s, h2, input, callee);
  }

  lemma ProgramPerforms(s: Setup, h: Host, input: CallInput, callee: Program)
    requires h.isDiffDapp || h.bugHit
    ensures var ran := RunActions(s, h, FrameOf(input), callee.actions);
            var (h', result, _) := ContractCall(s, h, input, callee);
            && h'.bugHit == (if s.chain.code(input.context.codeAddress).Some? then ran.0.bugHit else h.bugHit)
            && (result == CrossContractControlLeak
                <==> s.chain.code(input.context.codeAddress).Some? && ran.1 == CrossContractControlLeak)
  {
    ContractIsSame(s, h, input, callee);
    if s.chain.code(input.context.codeAddress).Some? {
      SameIsProgram(s, h, input, callee);
      ProgramIsActions(s, h, FrameOf(input), callee);
    }
  }

  lemma ContractIsSame(s: Setup, h: Host, input: CallInput, callee: Program)
    requires WithinDapp(s, h, input)
    ensures ContractCall(s, h, input, callee) == SameDappCall(s, h, input, callee)
    ensures s.chain.code(input.context.codeAddress).None?
            ==> SameDappCall(s, h, input, callee) == (h, Continue, input.input)
  {
  }

  lemma SameIsProgram(s: Setup, h: Host, input: CallInput, callee: Program)
    requires s.chain.code(input.context.codeAddress).Some?
    ensures SameDappCall(s, h, input, callee) == RunProgram(s, h, FrameOf(input), callee)
  {
  }

  lemma ProgramIsActions(s: Setup, h: Host, f: Frame, p: Program)
    ensures RunProgram(s, h, f, p).0 == RunActions(s, h, f, p.actions).0
    ensures RunProgram(s, h, f, p).1 == CrossContractControlLeak
            <==> RunActions(s, h, f, p.actions).1 == CrossContractControlLeak
  {
  }

  lemma TargetIsHit(s: Setup, h: Host, f: Frame, request: Request, callee: Program, h2: Host)
    requires InReplay(h) && !Journal.IsPrecompile(request.to, s.numOfPrecompiles)
    requires h2 == EnterCallee(s, Entered(s, h, f, InputOf(f, request)), InputOf(f, request))
    ensures InReplay(h2)
    ensures h2.bugHit <==> h.bugHit || Does(s, f, Call(request, callee), TargetCall)
  {
  }

  /** The frame that calls the target goes no further: it ends hit, or as fatally as its callee. */
  lemma HitStops(s: Setup, h: Host, f: Frame, request: Request, callee: Program)
    requires InReplay(h) && Does(s, f, Call(request, callee), TargetCall)
    ensures RunAction(s, h, f, Call(request, callee)).1
         == if HostCall(s, h, f, request, callee).1 == FatalExternalError then FatalExternalError else ImplicitBugHit
  {
    assert CallHits(s, h, f, request);
    RunCallIs(s, h, f, request, callee, HostCall(s, h, f, request, callee).1, true);
  }

  /** The host a victim starts in. */
  function VictimHost(s: Setup, h: Host, context: CallContext): Host {
    EnterReplay(s, Fund(s, h.(isExecuteVictimFunction := true), s.victim.from, s.victim.to, s.victim.value,
                        s.victim.value), context)
  }

  /**
    What a victim starts with: its own sender, target, value, data and block, the
    call context of the callee, no depth, nothing stored, asked or recorded, and
    the slots and balances of its own block.
   */
  lemma VictimStarts(s: Setup, h: Host, context: CallContext)
    ensures var v, tx := VictimHost(s, h, context), s.victim;
            && v.context == Context(Some(context),
                                    Env(tx.from, tx.to, tx.value, tx.text, tx.blockNumber, tx.timestamp), {}, {})
            && v.callDepth == 0 && v.isExecuteVictimFunction && v.isDiffDapp == h.isDiffDapp && v.bugHit == h.bugHit
            && (forall a: Address, key: U256 :: SlotValue(s, v, a, key) == s.chain.slot(true, a, key))
            && (forall a: Address :: FetchBalance(s, v, a).balances[a] == s.chain.balance(true, a))
    ensures VictimFrame(s) == Frame(s.victim.to, s.victim.from, s.victim.to, s.victim.value, s.victim.input)
  {
    assert VictimHost(s, h, context).storage == map[] && VictimHost(s, h, context).balances == map[];
  }

  /** A slot reads as it was last stored in the run, and else as the block has it that is run at. */
  lemma SlotReads(s: Setup, h: Host, a: Address, key: U256, b: Address, k: U256, value: U256)
    ensures var h1 := h.(storage := Store(h.storage, a, key, value));
            SlotValue(s, h1, b, k) == if b == a && k == key then value else SlotValue(s, h, b, k)
    ensures a !in h.storage ==> SlotValue(s, h, a, key) == s.chain.slot(h.isExecuteVictimFunction, a, key)
  {
  }

  /** What a target transaction starts with: its own sender, target, value and data, nothing hit and nothing stored. */
  lemma TransactionStarts(s: Setup, h: Host, tx: TargetTx)
    ensures var t := StartTransaction(h, tx);
            && !t.bugHit && t.history == h.history
            && t.context.env == Env(tx.from, tx.to, tx.value, tx.input, h.context.env.blockNumber,
                                    h.context.env.timestamp)
            && t.context.callContext == Some(CallContext(tx.to, tx.from, tx.to, tx.value, Evm.Call))
            && forall a: Address, key: U256 ::
                 SlotValue(s, t, a, key) == s.chain.slot(h.isExecuteVictimFunction, a, key)
    ensures s.chain.code(tx.to).None? ==> Execute(s, h, tx).1 == Revert
  {
  }

  /** Whether the victim, replayed after a callee that left `h`, calls the target function. */
  predicate VictimCallsTarget(s: Setup, h: Host, context: CallContext) {
    && s.victim.input != [] && s.chain.code(s.victim.to).Some?
    && Performs(s, VictimHost(s, h, context), VictimFrame(s), s.victim.program.actions, TargetCall)
  }

  /** A replay sets the hit exactly if the victim calls the target function. */
  lemma ReplayHits(s: Setup, h: Host, context: CallContext)
    requires h.isDiffDapp
    ensures Replay(s, h, context).0.bugHit <==> h.bugHit || VictimCallsTarget(s, h, context)
  {
    if s.victim.input != [] {
      var h2 := VictimHost(s, h, context);
      var p := CodeAt(s, s.victim.to, s.victim.program);
      ProgramIsActions(s, h2, VictimFrame(s), p);
      HitIfCalled(s, h2, VictimFrame(s), p.actions);
    }
  }

  // ---------------------------------------------------------------- leaks

  /** Between cross-DApp calls, the hit set. */
  ghost predicate AfterHit(h: Host) {
    !h.isDiffDapp && !h.isExecuteVictimFunction && h.bugHit
  }

  /** Once the target was hit, a run ends in a reported leak exactly if it performs a store. */
  lemma {:induction false} LeakIfStored(s: Setup, h: Host, f: Frame, actions: seq<Action>)
    requires AfterHit(h)
    ensures RunActions(s, h, f, actions).1 == CrossContractControlLeak <==> Performs(s, h, f, actions, AnyStore)
    ensures AfterHit(RunActions(s, h, f, actions).0)
    decreases actions
  {
    if actions != [] {
      LeakIfStoredBy(s, h, f, actions[0]);
      var (h1, result) := RunAction(s, h, f, actions[0]);
      if result == Continue {
        LeakIfStored(s, h1, f, actions[1..]);
      }
    }
  }

  lemma {:induction false} LeakIfStoredBy(s: Setup, h: Host, f: Frame, action: Action)
    requires AfterHit(h)
    ensures RunAction(s, h, f, action).1 == CrossContractControlLeak <==> Achieves(s, h, f, action, AnyStore)
    ensures AfterHit(RunAction(s, h, f, action).0)
    decreases action
  {
    if !action.Call? || Journal.IsPrecompile(action.request.to, s.numOfPrecompiles) {
      LeaksNothing(s, h, f, action);
    } else {
      var input := InputOf(f, action.request);
      var h2 := EnterCallee(s, Entered(s, h, f, input), input);
      CallPerforms(s, h, f, action.request, action.callee, h2);
      if s.chain.code(action.request.to).Some? {
        LeakIfStored(s, h2, FrameOf(input), action.callee.actions);
      }
      AchievesIs(s, h, f, action.request, action.callee, h2, AnyStore);
    }
  }

  lemma LeaksNothing(s: Setup, h: Host, f: Frame, action: Action)
    requires AfterHit(h) && (!action.Call? || Journal.IsPrecompile(action.request.to, s.numOfPrecompiles))
    ensures RunAction(s, h, f, action).1 == CrossContractControlLeak <==> action.Sstore?
    ensures Achieves(s, h, f, action, AnyStore) <==> action.Sstore?
    ensures AfterHit(RunAction(s, h, f, action).0)
  {
    if action.Call? {
      assert RunCall(s, h, f, action.request, action.callee)
          == (h, AfterCall(CallPrecompile(action.request).0, false));
    }
  }

  // ---------------------------------------------------------------- cross-DApp calls

  /** Between cross-DApp calls, nothing hit yet. */
  ghost predicate BeforeHit(h: Host) {
    !h.isDiffDapp && !h.isExecuteVictimFunction && !h.bugHit && h.noNeedForTest
  }

  /**
    Whether a call leaves the DApp: caller and callee are of DApps that are named
    differently, or have different creators if one of them is unknown. A CALLCODE never does.
   */
  predicate Crosses(s: Setup, f: Frame, r: Request) {
    var own, other := s.chain.dapp(f.address), s.chain.dapp(r.to);
    && r.scheme != Evm.CallCode
    && if own.Unknown() || other.Unknown() then own.creator != other.creator else own.dapp != other.dapp
  }

  /**
    Whether the callee of a cross-DApp call comes from arguments: it is the
    sender, the frame's caller, or, below the first frame, an address in the
    frame's input and in a recorded input that is neither in the frame's code nor
    was compared or loaded.
   */
  predicate FromArguments(s: Setup, h: Host, f: Frame, a: Address) {
    || a == h.context.env.caller
    || a == f.caller
    || (&& h.callDepth >= 1
        && HasWindow(f.input, ToBytes(a, 20))
        && (exists k | 0 <= k < |s.inputRecord| :: HasWindow(s.inputRecord[k], ToBytes(a, 20)))
        && (s.chain.code(f.codeAddress).Some? ==> !HasWindow(s.chain.code(f.codeAddress).value, ToBytes(a, 20)))
        && a !in h.context.compareRecord && a !in h.context.sloadRecord)
  }

  lemma EnteredIs(s: Setup, h: Host, f: Frame, r: Request, h2: Host)
    requires BeforeHit(h)
    requires h2 == EnterCallee(s, Entered(s, h, f, InputOf(f, r)), InputOf(f, r))
    ensures BeforeHit(h2) && h2.history == h.history
    ensures WithinDapp(s, h2, InputOf(f, r)) <==> !Crosses(s, f, r)
    ensures Crosses(s, f, r) ==> (h2.fromArgs <==> FromArguments(s, h, f, r.to))
    ensures InputOf(f, r).gasLimit == r.gasLimit
  {
  }

  /** The run of the callee of a cross-DApp call made in frame `f`. */
  function CrossRun(s: Setup, h: Host, f: Frame, r: Request, callee: Program): (Host, InstructionResult, Bytes)
    requires !h.isDiffDapp
  {
    RunCallee(s, Crossing(EnterCallee(s, Entered(s, h, f, InputOf(f, r)), InputOf(f, r))), InputOf(f, r), callee)
  }

  /** Whether the call, whose callee ran as `ran`, has the victim replayed, and the victim calls the target. */
  predicate HitsInReplay(s: Setup, h: Host, f: Frame, r: Request, ran: (Host, InstructionResult, Bytes)) {
    && FromArguments(s, h, f, r.to) && r.gasLimit != 2300
    && ran.1 in {Stop, Return, SelfDestruct}
    && VictimCallsTarget(s, ran.0, InputOf(f, r).context)
  }

  /**
    A cross-DApp call outside any other notes its start, with the gas limit of its
    opcode and whether its callee comes from arguments, and the end of its callee;
    and it sets the hit exactly if its replay is due and the victim calls the
    target. Having set it, the run goes on.
   */
  lemma CrossCallHits(s: Setup, h: Host, f: Frame, r: Request, callee: Program)
    requires BeforeHit(h) && !Journal.IsPrecompile(r.to, s.numOfPrecompiles) && Crosses(s, f, r)
    ensures var ran := CrossRun(s, h, f, r, callee);
            var (h', result) := RunCall(s, h, f, r, callee);
            && h.history + [CrossStart(FromArguments(s, h, f, r.to), r.gasLimit), CalleeEnd(ran.1)] <= h'.history
            && (h'.bugHit <==> HitsInReplay(s, h, f, r, ran))
            && (h'.bugHit ==> AfterHit(h') && result == Continue)
  {
    var input := InputOf(f, r);
    var h1 := Entered(s, h, f, input);
    var h2 := EnterCallee(s, h1, input);
    EnteredIs(s, h, f, r, h2);
    CrossDivides(s, h1, input, callee, h2);
    var ran := CrossRun(s, h, f, r, callee);
    CalleeHistory(s, Crossing(h2), input, callee);
    AfterCross(s, ran, input, h2.fromArgs);
    var ended := DivideCall(s, h1, input, callee);
    HostCallIs(s, h, f, r, callee, h1, ended.0, ended.1);
    RunCallIs(s, h, f, r, callee, ended.1, false);
  }

  lemma CrossDivides(s: Setup, h: Host, input: CallInput, callee: Program, h2: Host)
    requires h2 == EnterCallee(s, h, input) && !WithinDapp(s, h2, input)
    ensures var after := AfterCallee(s, RunCallee(s, Crossing(h2), input, callee), input);
            var r := DivideCall(s, h, input, callee);
            r.0 == after.0.(context := h.context) && r.1 == after.1
  {
    ContractIsCross(s, h2, input, callee);
    DivideIs(s, h, input, callee, ContractCall(s, h2, input, callee));
  }

  lemma ContractIsCross(s: Setup, h: Host, input: CallInput, callee: Program)
    requires !WithinDapp(s, h, input)
    ensures ContractCall(s, h, input, callee) == CrossDappCall(s, Crossing(h), input, callee)
  {
  }

  lemma DivideIs(s: Setup, h: Host, input: CallInput, callee: Program, called: (Host, InstructionResult, Bytes))
    requires called == ContractCall(s, EnterCallee(s, h, input), input, callee)
    ensures DivideCall(s, h, input, callee).0 == called.0.(context := h.context)
    ensures DivideCall(s, h, input, callee).1 == called.1
  {
  }

  lemma AfterCross(s: Setup, ran: (Host, InstructionResult, Bytes), input: CallInput, fromArgs: bool)
    requires ran.0.isDiffDapp && ran.1 != CrossContractControlLeak && !ran.0.bugHit && !ran.0.isExecuteVictimFunction
    requires ran.0.noNeedForTest == !fromArgs
    ensures var r := AfterCallee(s, ran, input);
            && (r.0.bugHit <==> fromArgs && input.gasLimit != 2300 && ran.1 in {Stop, Return, SelfDestruct}
                                && VictimCallsTarget(s, ran.0, input.context))
            && (r.0.bugHit ==> r.1 == ran.1)
            && ran.0.history <= r.0.history
            && !r.0.isDiffDapp && !r.0.isExecuteVictimFunction
  {
    if Replays(ran.0, ran.1, input.gasLimit) {
      ReplayHits(s, ran.0, input.context);
      var _ := ReplayHistory(s, ran.0, input.context);
      ReplayedIs(s, ran, input);
    }
  }

  /** A call that does not leave the DApp notes nothing itself. */
  lemma WithinNotesNothing(s: Setup, h: Host, f: Frame, r: Request, callee: Program)
    requires BeforeHit(h) && !Crosses(s, f, r) && callee.actions == []
    ensures RunCall(s, h, f, r, callee).0.history == h.history
  {
    if !Journal.IsPrecompile(r.to, s.numOfPrecompiles) {
      var input := InputOf(f, r);
      var h1 := Entered(s, h, f, input);
      var h2 := EnterCallee(s, h1, input);
      EnteredIs(s, h, f, r, h2);
      var ended := DivideCall(s, h1, input, callee);
      WithinDivides(s, h1, input, callee, h2);
      HostCallIs(s, h, f, r, callee, h1, ended.0, ended.1);
    }
  }

  lemma WithinDivides(s: Setup, h: Host, input: CallInput, callee: Program, h2: Host)
    requires h2 == EnterCallee(s, h, input) && WithinDapp(s, h2, input) && callee.actions == []
    ensures DivideCall(s, h, input, callee).0.history == h2.history
  {
    ContractIsSame(s, h2, input, callee);
    DivideIs(s, h, input, callee, ContractCall(s, h2, input, callee));
    if s.chain.code(input.context.codeAddress).Some? {
      SameIsProgram(s, h2, input, callee);
    }
  }

  lemma {:induction false} RunActionsConcat(s: Setup, h: Host, f: Frame, xs: seq<Action>, ys: seq<Action>)
    requires RunActions(s, h, f, xs).1 == Continue
    ensures RunActions(s, h, f, xs + ys) == RunActions(s, RunActions(s, h, f, xs).0, f, ys)
    decreases |xs|
  {
    if xs == [] {
      assert xs + ys == ys;
    } else {
      assert (xs + ys)[1..] == xs[1..] + ys;
      RunActionsConcat(s, RunAction(s, h, f, xs[0]).0, f, xs[1..], ys);
    }
  }

  lemma RunActionsFirst(s: Setup, h: Host, f: Frame, action: Action, rest: seq<Action>)
    requires RunAction(s, h, f, action).1 == Continue
    ensures RunActions(s, h, f, [action] + rest) == RunActions(s, RunAction(s, h, f, action).0, f, rest)
  {
    assert ([action] + rest)[1..] == rest;
  }

  lemma RunsThrough(s: Setup, h: Host, f: Frame, before: seq<Action>, r: Request, callee: Program, rest: seq<Action>,
                    h1: Host, h2: Host)
    requires RunActions(s, h, f, before).0 == h1 && RunActions(s, h, f, before).1 == Continue
    requires RunCall(s, h1, f, r, callee).0 == h2 && RunCall(s, h1, f, r, callee).1 == Continue
    ensures RunActions(s, h, f, before + ([Call(r, callee)] + rest)) == RunActions(s, h2, f, rest)
  {
    CallAction(s, h1, f, r, callee);
    RunActionsFirst(s, h1, f, Call(r, callee), rest);
    RunActionsConcat(s, h, f, before, [Call(r, callee)] + rest);
  }

  lemma CallAction(s: Setup, h: Host, f: Frame, r: Request, callee: Program)
    ensures RunAction(s, h, f, Call(r, callee)).0 == RunCall(s, h, f, r, callee).0
    ensures RunAction(s, h, f, Call(r, callee)).1 == RunCall(s, h, f, r, callee).1
  {
  }

  lemma LeakAfterHit(s: Setup, h: Host, f: Frame, before: seq<Action>, r: Request, callee: Program,
                     after: seq<Action>, h1: Host, h2: Host)
    requires RunActions(s, h, f, before).0 == h1 && RunActions(s, h, f, before).1 == Continue
    requires RunCall(s, h1, f, r, callee).0 == h2 && RunCall(s, h1, f, r, callee).1 == Continue && AfterHit(h2)
    ensures RunActions(s, h, f, before + [Call(r, callee)] + after).1 == CrossContractControlLeak
            <==> Performs(s, h2, f, after, AnyStore)
  {
    RunsThrough(s, h, f, before, r, callee, after, h1, h2);
    LeakIfStored(s, h2, f, after);
    assert before + [Call(r, callee)] + after == before + ([Call(r, callee)] + after);
  }

  /**
    Every leak is reported: if a frame outside cross-DApp calls gets to a
    cross-DApp call from arguments whose gas limit is not 2300 and whose callee ends
    well, the victim replayed after it calls the target function of the origin, and
    what the frame has left to do performs a store, here or in its own DApp's
    callees, then the frame ends in CrossContractControlLeak; and if it performs
    none it does not.
   */
  lemma LeakIsReported(s: Setup, h: Host, f: Frame, before: seq<Action>, r: Request, callee: Program,
                       after: seq<Action>)
    requires RunActions(s, h, f, before).1 == Continue && BeforeHit(RunActions(s, h, f, before).0)
    requires !Journal.IsPrecompile(r.to, s.numOfPrecompiles) && Crosses(s, f, r)
    requires var h1 := RunActions(s, h, f, before).0;
             HitsInReplay(s, h1, f, r, CrossRun(s, h1, f, r, callee))
    ensures var h2 := RunCall(s, RunActions(s, h, f, before).0, f, r, callee).0;
            RunActions(s, h, f, before + [Call(r, callee)] + after).1 == CrossContractControlLeak
            <==> Performs(s, h2, f, after, AnyStore)
  {
    var h1 := RunActions(s, h, f, before).0;
    var h2 := RunCall(s, h1, f, r, callee).0;
    CrossCallHits(s, h1, f, r, callee);
    LeakAfterHit(s, h, f, before, r, callee, after, h1, h2);
  }
}
