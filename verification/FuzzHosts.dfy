/**
  `FuzzHost` as the object of the source. Its methods write flags, records,
  environment and storage in place, save them before a nested run and write
  them back after; each is proved to do what `Detector` says of its value.
 */
module FuzzHosts {
  import opened Words
  import opened InstructionResults
  import opened Detector
  import opened Detections
  import Journal
  import Evm

  class FuzzHost {
    const setup: Setup
    var storage: ContractStorage
    var env: Env
    var isDiffDapp: bool
    var isExecuteVictimFunction: bool
    var noNeedForTest: bool
    var fromArgs: bool
    var bugHit: bool
    var callDepth: nat
    var balances: map<Address, U256>
    var compareRecord: set<Address>
    var sloadRecord: set<Address>
    var entryFunction: Bytes
    /** The global GLOBAL_CALL_CONTEXT of the source. */
    var callContext: Option<CallContext>
    ghost var history: seq<Event>

    ghost function Value(): Host
      reads this
    {
      Host(storage, Context(callContext, env, compareRecord, sloadRecord), isDiffDapp, isExecuteVictimFunction,
           noNeedForTest, fromArgs, bugHit, callDepth, balances, entryFunction, history)
    }

    constructor (setup: Setup)
      ensures Value() == New() && this.setup == setup
    {
      this.setup := setup;
      storage, balances, compareRecord, sloadRecord := map[], map[], {}, {};
      env := Env(0, 0, 0, [], 0, 0);
      isDiffDapp, isExecuteVictimFunction, noNeedForTest, fromArgs, bugHit := false, false, true, false, false;
      callDepth, entryFunction, callContext := 0, [], None;
      history := [];
    }

    // -------------------------------------------------------------- opcodes

    /** The part of `step` that looks at the opcode about to run. */
    method Step(f: Frame, action: Action) returns (result: InstructionResult)
      modifies this`compareRecord, this`history
      ensures result == if action.Sstore? && bugHit && !isDiffDapp then CrossContractControlLeak else Continue
      ensures compareRecord
           == if action.Compare? then old(compareRecord) + {Low160(action.left), Low160(action.right)}
              else old(compareRecord)
      ensures history
           == if result == CrossContractControlLeak then old(history) + [LeakStore(f.address, action.key)]
              else old(history)
    {
      result := Continue;
      match action {
        case Sstore(key, _) =>
          if bugHit && !isDiffDapp {
            result := CrossContractControlLeak;
            history := history + [LeakStore(f.address, key)];
          }
        case Compare(left, right) =>
          compareRecord := compareRecord + {Low160(left)};
          compareRecord := compareRecord + {Low160(right)};
        case _ =>
      }
    }

    method LoadSlot(a: Address, key: U256) returns (value: U256)
      modifies this`sloadRecord
      ensures value == SlotValue(setup, old(Value()), a, key)
      ensures sloadRecord == old(sloadRecord) + {Low160(value)}
    {
      if a in storage && key in storage[a] {
        value := storage[a][key];
      } else {
        value := setup.chain.slot(isExecuteVictimFunction, a, key);
      }
      sloadRecord := sloadRecord + {Low160(value)};
    }

    method StoreSlot(a: Address, key: U256, value: U256)
      modifies this`storage
      ensures storage == Store(old(storage), a, key, value)
    {
      var account: map<U256, U256> := map[];
      if a in storage {
        account := storage[a];
      }
      account := account[key := value];
      storage := storage[a := account];
    }

    method LoadBalance(a: Address)
      modifies this`balances
      ensures Value() == FetchBalance(setup, old(Value()), a)
    {
      if a !in balances {
        balances := balances[a := setup.chain.balance(isExecuteVictimFunction, a)];
      }
    }

    method FundCall(from: Address, to: Address, apparentValue: U256, value: U256)
      modifies this`balances
      ensures Value() == Fund(setup, old(Value()), from, to, apparentValue, value)
    {
      if apparentValue > 0 {
        LoadBalance(from);
        LoadBalance(to);
        var fromBalance, toBalance := balances[from], balances[to];
        balances := balances[from := WrappingSub(fromBalance, value)];
        balances := balances[to := WrappingAdd(value, toBalance)];
      }
    }

    method LoadOpcode(f: Frame, key: U256) returns (result: InstructionResult)
      modifies this
      ensures var r := RunAction(setup, old(Value()), f, Sload(key)); Value() == r.0 && result == r.1
    {
      result := Step(f, Sload(key));
      var value := LoadSlot(f.address, key);
    }

    method StoreOpcode(f: Frame, key: U256, value: U256) returns (result: InstructionResult)
      modifies this
      ensures var r := RunAction(setup, old(Value()), f, Sstore(key, value)); Value() == r.0 && result == r.1
    {
      result := Step(f, Sstore(key, value));
      StoreSlot(f.address, key, value);
    }

    method BalanceOpcode(f: Frame, a: Address) returns (result: InstructionResult)
      modifies this
      ensures var r := RunAction(setup, old(Value()), f, Balance(a)); Value() == r.0 && result == r.1
    {
      result := Step(f, Balance(a));
      LoadBalance(a);
    }

    /** An opcode that the host only steps over. */
    method OtherOpcode(f: Frame, action: Action) returns (result: InstructionResult)
      requires action.Compare? || action.FailedCall?
      modifies this
      ensures var r := RunAction(setup, old(Value()), f, action); Value() == r.0 && result == r.1
    {
      result := Step(f, action);
    }

    /** An opcode other than a call: `step`, then its execution. */
    method RunPlainOpcode(f: Frame, action: Action) returns (result: InstructionResult)
      requires !action.Call?
      modifies this
      ensures var r := RunAction(setup, old(Value()), f, action); Value() == r.0 && result == r.1
    {
      match action
      case Sload(key) => result := LoadOpcode(f, key);
      case Sstore(key, value) => result := StoreOpcode(f, key, value);
      case Balance(a) => result := BalanceOpcode(f, a);
      case Compare(_, _) => result := OtherOpcode(f, action);
      case FailedCall(_) => result := OtherOpcode(f, action);
    }

    /** One opcode. */
    method RunOpcode(f: Frame, action: Action) returns (result: InstructionResult)
      modifies this
      ensures var r := RunAction(setup, old(Value()), f, action); Value() == r.0 && result == r.1
      decreases Mode(Value()), action
    {
      if action.Call? {
        result := Step(f, action);
        result := CallOpcode(f, action.request, action.callee);
      } else {
        result := RunPlainOpcode(f, action);
      }
    }

    /** The interpreter loop. */
    method RunInspect(f: Frame, p: Program) returns (result: InstructionResult, output: Bytes)
      modifies this
      ensures var r := RunProgram(setup, old(Value()), f, p); Value() == r.0 && result == r.1 && output == r.2
      decreases Mode(Value()), p, 0
    {
      result := Continue;
      var k := 0;
      ghost var h := Value();
      while result == Continue && k < |p.actions|
        invariant k <= |p.actions| && isDiffDapp == h.isDiffDapp
        invariant RunActions(setup, h, f, p.actions)
               == if result == Continue then RunActions(setup, Value(), f, p.actions[k..]) else (Value(), result)
        decreases |p.actions| - k
      {
        ghost var h1 := Value();
        result := RunOpcode(f, p.actions[k]);
        assert p.actions[k..][1..] == p.actions[k + 1..];
        assert RunAction(setup, h1, f, p.actions[k..][0]) == (Value(), result);
        k := k + 1;
      }
      if result == Continue {
        result, output := p.exit, p.output;
      } else {
        output := [];
      }
    }

    // -------------------------------------------------------------- calls

    /** What a CALL-family opcode makes of `Call`. */
    method CallOpcode(f: Frame, request: Request, callee: Program) returns (result: InstructionResult)
      modifies this
      ensures var r := RunCall(setup, old(Value()), f, request, callee); Value() == r.0 && result == r.1
      decreases Mode(Value()), callee, 7
    {
      ghost var h := Value();
      var reason, hit := CallHost(f, request, callee);
      RunCallIs(setup, h, f, request, callee, reason, hit);
      result := PropagateResult(reason, hit);
    }

    /** What the interpreter does with the result of a call. */
    static method PropagateResult(reason: InstructionResult, hit: bool) returns (result: InstructionResult)
      ensures result == AfterCall(reason, hit)
    {
      match reason
      case CrossContractControlLeak => result := reason;
      case ImplicitBugHit => result := reason;
      case FatalExternalError => result := reason;
      case _ => result := if hit then ImplicitBugHit else Continue;
    }

    /** `call`; `hit` stands for the write to the calling interpreter's result. */
    method CallHost(f: Frame, request: Request, callee: Program) returns (reason: InstructionResult, hit: bool)
      modifies this
      ensures var r := HostCall(setup, old(Value()), f, request, callee); Value() == r.0 && reason == r.1
      ensures hit == CallHits(setup, old(Value()), f, request)
      decreases Mode(Value()), callee, 6
    {
      if Journal.IsPrecompile(request.to, setup.numOfPrecompiles) {
        hit := false;
        callDepth := callDepth + 1;
        reason := CallPrecompile(request).0;
        callDepth := callDepth - 1;
      } else {
        ghost var h := Value();
        ghost var entered, returned;
        hit, entered := BeginCall(f, InputOf(f, request));
        reason, returned := RunContract(InputOf(f, request), callee);
        HostCallIs(setup, h, f, request, callee, entered, returned, reason);
      }
    }

    /** The callee's part of `call`. */
    method RunContract(input: CallInput, callee: Program) returns (reason: InstructionResult, ghost returned: Host)
      requires callDepth > 0
      modifies this
      ensures var r := DivideCall(setup, old(Value()), input, callee); returned == r.0 && reason == r.1
      ensures returned.callDepth > 0 && Value() == returned.(callDepth := returned.callDepth - 1)
      decreases Mode(Value()), callee, 5
    {
      var output;
      reason, output := DivideCallByIsSameDapp(input, callee);
      returned := Value();
      SubCallDepth();
    }

    method SubCallDepth()
      requires callDepth > 0
      modifies this`callDepth
      ensures Value() == old(Value()).(callDepth := old(callDepth) - 1)
    {
      callDepth := callDepth - 1;
    }

    /** Whether some transaction input carries the address, and nothing has checked it. */
    method IsAddressFromInput(input: Bytes, a: Address, codeAddress: Address) returns (unsafeAddress: bool)
      ensures unsafeAddress == IsInputContainAddress(setup, Value(), input, a, codeAddress)
    {
      var bytes := ToBytes(a, 20);
      if !HasWindow(input, bytes) {
        return false;
      }
      var code := setup.chain.code(codeAddress);
      if code.Some? && HasWindow(code.value, bytes) {
        return false;
      }
      for k := 0 to |setup.inputRecord|
        invariant forall i | 0 <= i < k ::
                    HasWindow(setup.inputRecord[i], bytes) ==> a in compareRecord || a in sloadRecord
      {
        if HasWindow(setup.inputRecord[k], bytes) && a !in compareRecord && a !in sloadRecord {
          return true;
        }
      }
      return false;
    }

    method CheckCallee(f: Frame, input: CallInput) returns (hit: bool)
      modifies this`fromArgs, this`bugHit, this`history
      ensures Value() == BeforeCall(setup, old(Value()), f, input) && hit == HitsTarget(setup, old(Value()), input)
    {
      var a := CalledAddress(input);
      var chosen := false;
      if callDepth > 0 {
        chosen := IsAddressFromInput(f.input, a, f.codeAddress);
      }
      fromArgs := chosen || a == f.caller || a == env.caller;
      hit := isExecuteVictimFunction && a == setup.origin && Selector(input.input) == setup.targetDependency;
      if hit {
        bugHit := true;
        history := history + [Hit(a, Selector(input.input))];
      }
    }

    method SetContext(oldCallContext: Option<CallContext>, oldEnv: Env, oldCompareRecord: set<Address>,
                      oldSloadRecord: set<Address>)
      modifies this`callContext, this`env, this`compareRecord, this`sloadRecord
      ensures Value() == old(Value()).(context := Context(oldCallContext, oldEnv, oldCompareRecord, oldSloadRecord))
    {
      callContext := oldCallContext;
      env := oldEnv;
      compareRecord := oldCompareRecord;
      sloadRecord := oldSloadRecord;
    }

    method BeginCall(f: Frame, input: CallInput) returns (hit: bool, ghost entered: Host)
      modifies this`fromArgs, this`bugHit, this`history, this`callDepth
      ensures Value() == entered == Entered(setup, old(Value()), f, input)
      ensures hit == HitsTarget(setup, old(Value()), input)
    {
      hit := CheckCallee(f, input);
      callDepth := callDepth + 1;
      entered := Value();
    }

    method EnterCalleeContext(input: CallInput)
      modifies this`callContext, this`env, this`compareRecord, this`sloadRecord, this`balances
      ensures Value() == EnterCallee(setup, old(Value()), input)
    {
      var context := input.context;
      SetContext(Some(context), env.(to := context.address, value := context.apparentValue, data := input.input), {},
                 {});
      FundCall(context.caller, context.address, context.apparentValue, input.transferValue);
    }

    /** Saves the context, runs the callee in its own, and writes the saved one back. */
    method DivideCallByIsSameDapp(input: CallInput, callee: Program) returns (result: InstructionResult, output: Bytes)
      modifies this
      ensures var r := DivideCall(setup, old(Value()), input, callee); Value() == r.0 && result == r.1 && output == r.2
      decreases Mode(Value()), callee, 4
    {
      var oldCallContext, oldEnv := callContext, env;
      var oldSloadRecord, oldCompareRecord := sloadRecord, compareRecord;
      EnterCalleeContext(input);
      result, output := RunDivided(input, callee);
      SetContext(oldCallContext, oldEnv, oldCompareRecord, oldSloadRecord);
    }

    /** The callee of `DivideCallByIsSameDapp`, its context entered. */
    method RunDivided(input: CallInput, callee: Program) returns (result: InstructionResult, output: Bytes)
      modifies this
      ensures var r := ContractCall(setup, old(Value()), input, callee);
              Value() == r.0 && result == r.1 && output == r.2
      decreases Mode(Value()), callee, 3
    {
      if isDiffDapp || IsSame(setup, input.context) || bugHit {
        result, output := CallForbidControlLeak(input, callee);
      } else {
        if fromArgs {
          noNeedForTest := false;
        }
        result, output := CallForbidControlLeakInDiffDapp(input, callee);
        isDiffDapp := false;
      }
    }

    method CallForbidControlLeak(input: CallInput, callee: Program) returns (result: InstructionResult, output: Bytes)
      modifies this
      ensures var r := SameDappCall(setup, old(Value()), input, callee);
              Value() == r.0 && result == r.1 && output == r.2
      decreases Mode(Value()), callee, 1
    {
      if setup.chain.code(input.context.codeAddress).Some? {
        result, output := RunInspect(FrameOf(input), callee);
      } else {
        result, output := Continue, input.input;
      }
    }

    /** Runs the callee, and replays the victim if the callee ended well and a test is due. */
    method CallForbidControlLeakInDiffDapp(input: CallInput, callee: Program)
        returns (result: InstructionResult, output: Bytes)
      requires !isDiffDapp
      modifies this
      ensures var r := CrossDappCall(setup, old(Value()), input, callee);
              Value().(isDiffDapp := false) == r.0 && result == r.1 && output == r.2
      decreases Mode(Value()), callee, 2
    {
      result, output := RunInDiffDapp(input, callee);
      result, output := FinishDiffDapp(input, result, output);
    }

    method FinishDiffDapp(input: CallInput, ran: InstructionResult, data: Bytes)
      returns (result: InstructionResult, output: Bytes)
      requires isDiffDapp && ran != CrossContractControlLeak
      modifies this
      ensures var r := AfterCallee(setup, (old(Value()), ran, data), input);
              Value().(isDiffDapp := false) == r.0 && result == r.1 && output == r.2
      decreases 0, CodeAt(setup, setup.victim.to, setup.victim.program), 2
    {
      result, output := ran, data;
      if (ran != Stop && ran != Return && ran != SelfDestruct) || noNeedForTest || input.gasLimit == 2300 {
        noNeedForTest := true;
        return;
      }
      var replayed := ReplayVictim(input.context);
      if setup.victim.input == [] {
        result, output := Continue, setup.victim.text;
      } else if replayed == CrossContractControlLeak {
        result := replayed;
      }
    }

    method EnterDiffDapp(input: CallInput)
      modifies this`history, this`isDiffDapp, this`entryFunction
      ensures Value() == EnterDiff(old(Value()), input)
    {
      history := history + [CrossStart(fromArgs, input.gasLimit)];
      isDiffDapp := true;
      entryFunction := Selector(input.input);
    }

    method RunInDiffDapp(input: CallInput, callee: Program) returns (result: InstructionResult, output: Bytes)
      requires !isDiffDapp
      modifies this
      ensures var r := Detector.RunCallee(setup, old(Value()), input, callee);
              Value() == r.0 && result == r.1 && output == r.2
      decreases Mode(Value()), callee, 1
    {
      EnterDiffDapp(input);
      result, output := RunInspect(FrameOf(input), CodeAt(setup, input.context.codeAddress, callee));
      history := history + [CalleeEnd(result)];
    }

    /** A context without storage, balances or records, for the victim. */
    method EnterVictimContext(context: CallContext)
      modifies this
      ensures Value() == EnterReplay(setup, old(Value()), context)
    {
      var tx := setup.victim;
      SetContext(Some(context), Env(tx.from, tx.to, tx.value, tx.text, tx.blockNumber, tx.timestamp), {}, {});
      balances, storage := map[], map[];
      callDepth := 0;
      history := history + [ReplayStart];
    }

    method LeaveVictimContext(oldBalances: map<Address, U256>, oldStorage: ContractStorage, oldCallDepth: nat)
      modifies this
      ensures Value() == old(Value()).(
        balances := oldBalances, storage := oldStorage, callDepth := oldCallDepth,
        isExecuteVictimFunction := false, noNeedForTest := true, fromArgs := false,
        history := old(history) + [ReplayEnd])
    {
      balances, storage := oldBalances, oldStorage;
      callDepth := oldCallDepth;
      ClearReplayFlags();
    }

    method ClearReplayFlags()
      modifies this`isExecuteVictimFunction, this`noNeedForTest, this`fromArgs, this`history
      ensures Value() == old(Value()).(
        isExecuteVictimFunction := false, noNeedForTest := true, fromArgs := false,
        history := old(history) + [ReplayEnd])
    {
      isExecuteVictimFunction := false;
      noNeedForTest := true;
      fromArgs := false;
      history := history + [ReplayEnd];
    }

    /** Runs the victim transaction on empty storage and balances, then puts everything saved back. */
    method ReplayVictim(context: CallContext) returns (result: InstructionResult)
      requires isDiffDapp
      modifies this
      ensures var r := Replay(setup, old(Value()), context); Value() == r.0 && result == r.1
      decreases 0, CodeAt(setup, setup.victim.to, setup.victim.program), 1
    {
      var tx := setup.victim;
      isExecuteVictimFunction := true;
      FundCall(tx.from, tx.to, tx.value, tx.value);
      var oldCallContext, oldEnv, oldCallDepth := callContext, env, callDepth;
      var oldSloadRecord, oldCompareRecord := sloadRecord, compareRecord;
      var oldBalances, oldStorage := balances, storage;
      EnterVictimContext(context);
      result := Continue;
      if tx.input != [] {
        var output;
        result, output := RunInspect(VictimFrame(setup), CodeAt(setup, tx.to, tx.program));
      }
      SetContext(oldCallContext, oldEnv, oldCompareRecord, oldSloadRecord);
      LeaveVictimContext(oldBalances, oldStorage, oldCallDepth);
    }

    method BeginTransaction(tx: TargetTx)
      modifies this
      ensures Value() == StartTransaction(old(Value()), tx)
    {
      bugHit := false;
      storage := map[];
      env := Env(tx.from, tx.to, tx.value, tx.input, env.blockNumber, env.timestamp);
      callContext := Some(CallContext(tx.to, tx.from, tx.to, tx.value, Evm.Call));
    }

    /** `execute_from_pc`: a target transaction; a leak it reports has its witness in the history. */
    method ExecuteTransaction(tx: TargetTx) returns (result: InstructionResult, output: Bytes)
      requires !isDiffDapp && !isExecuteVictimFunction && noNeedForTest && history == []
      modifies this
      ensures var r := Execute(setup, old(Value()), tx); Value() == r.0 && result == r.1 && output == r.2
      ensures result == CrossContractControlLeak <==> HasLeak(Value().history)
      ensures result == CrossContractControlLeak ==> Leaked(setup, Value())
    {
      ghost var h := Value();
      BeginTransaction(tx);
      if setup.chain.code(tx.to).None? {
        result, output := Revert, [];
      } else {
        FundCall(tx.from, tx.to, tx.value, tx.value);
        result, output := RunInspect(Frame(tx.to, tx.from, tx.to, tx.value, tx.input), tx.program);
      }
      ReportedLeakHasWitness(setup, h, tx);
    }
  }
}
