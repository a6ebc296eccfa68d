/**
  The detector of smartReco (src/evm/host.rs, `FuzzHost`) as functions on its
  state. Contracts are finite trees of the actions the host sees. A cross-DApp
  call runs its callee and may then replay a victim transaction, with the
  context saved before and put back after. `history` collects what happened in
  a run, for theorems to speak about; the source keeps no such field.
 */
module Detector {
  import opened Words
  import opened InstructionResults
  import Journal
  import Evm

  type Scheme = Evm.CallScheme

  /** How an interpreter can end by itself; the detector's own codes are not among these. */
  type Exit = r: InstructionResult | r != Continue && r != ImplicitBugHit && r != CrossContractControlLeak witness Stop

  datatype Program = Program(actions: seq<Action>, exit: Exit, output: Bytes)

  datatype Action =
    | Sload(key: U256)
    | Sstore(key: U256, value: U256)
    | Compare(left: U256, right: U256)
    | Balance(a: Address)
    | Call(request: Request, callee: Program)
    /** A CALL-family opcode that fails in its interpreter, before it asks the host to call. */
    | FailedCall(scheme: Scheme)

  /** The operands of a CALL-family opcode, and what a precompile would answer. */
  datatype Request = Request(scheme: Scheme, to: Address, value: U256, input: Bytes, gasLimit: U64,
                             precompile: Option<Bytes>)

  datatype CallContext = CallContext(
    address: Address, caller: Address, codeAddress: Address, apparentValue: U256, scheme: Scheme)

  datatype CallInput = CallInput(contract: Address, transferValue: U256, input: Bytes, gasLimit: U64,
                                 context: CallContext)

  /** The contract an interpreter runs. */
  datatype Frame = Frame(address: Address, caller: Address, codeAddress: Address, value: U256, input: Bytes)

  /** What `change_env` writes. */
  datatype Env = Env(caller: Address, to: Address, value: U256, data: Bytes, blockNumber: U256, timestamp: U256)

  datatype DappInfo = DappInfo(creator: Address, dapp: string) {
    predicate Unknown() {
      SaysUnknown(dapp)
    }
  }

  /** Chain data, as fixed functions; the flags ask for the block of the victim transaction. */
  datatype Chain = Chain(
    code: Address -> Option<Bytes>,
    dapp: Address -> DappInfo,
    slot: (bool, Address, U256) -> U256,
    balance: (bool, Address) -> U256)

  /** `text` is the input as it was downloaded, in hexadecimal digits. */
  datatype VictimTx = VictimTx(
    from: Address, to: Address, value: U256, input: Bytes, text: Bytes, blockNumber: U256, timestamp: U256,
      program: Program)

  datatype Setup = Setup(
    chain: Chain, origin: Address, targetDependency: Bytes, inputRecord: seq<Bytes>, victim: VictimTx,
      numOfPrecompiles: nat)

  datatype Event =
    | CrossStart(fromArgs: bool, gasLimit: U64)
    | CalleeEnd(result: InstructionResult)
    | ReplayStart
    | Hit(to: Address, selector: Bytes)
    | ReplayEnd
    | LeakStore(address: Address, key: U256)

  type ContractStorage = map<Address, map<U256, U256>>

  /** What a call saves and puts back: the global call context, the environment and the taint records. */
  datatype Context = Context(
    callContext: Option<CallContext>,
    env: Env,
    compareRecord: set<Address>,
    sloadRecord: set<Address>)

  datatype Host = Host(
    storage: ContractStorage,
    context: Context,
    isDiffDapp: bool,
    isExecuteVictimFunction: bool,
    noNeedForTest: bool,
    fromArgs: bool,
    bugHit: bool,
    callDepth: nat,
    balances: map<Address, U256>,
    entryFunction: Bytes,
    history: seq<Event>)

  function New(): Host {
    Host(map[], Context(None, Env(0, 0, 0, [], 0, 0), {}, {}), false, false, true, false, false, 0, map[], [], [])
  }

  // ---------------------------------------------------------------- helpers

  function Low160(v: U256): Address {
    v % TWO_160
  }

  /** `contains("unknown")` on either name falls back to the creators. */
  predicate SameDapp(a: DappInfo, b: DappInfo) {
    if a.Unknown() || b.Unknown() then a.creator == b.creator else a.dapp == b.dapp
  }

  predicate IsFromSameDapp(from: DappInfo, to: DappInfo, code: DappInfo, scheme: Scheme) {
    if scheme == Evm.DelegateCall then SameDapp(to, code) else SameDapp(from, to)
  }

  /** The callee's address was chosen by the inputs of the transaction and not checked since. */
  predicate IsInputContainAddress(s: Setup, h: Host, input: Bytes, a: Address, codeAddress: Address) {
    var bytes := ToBytes(a, 20);
    var code := s.chain.code(codeAddress);
    && HasWindow(input, bytes)
    && !(code.Some? && HasWindow(code.value, bytes))
    && (exists k | 0 <= k < |s.inputRecord| :: HasWindow(s.inputRecord[k], bytes))
    && a !in h.context.compareRecord && a !in h.context.sloadRecord
  }

  function Selector(input: Bytes): Bytes {
    if |input| < 4 then [0, 0, 0, 0] else input[..4]
  }

  /** The inputs that the CALL family of opcodes builds in frame `f`. */
  function InputOf(f: Frame, r: Request): CallInput {
    match r.scheme
    case Call => CallInput(r.to, r.value, r.input, r.gasLimit, CallContext(r.to, f.address, r.to, r.value, Evm.Call))
    case StaticCall => CallInput(r.to, 0, r.input, r.gasLimit, CallContext(r.to, f.address, r.to, 0, Evm.StaticCall))
    case CallCode => CallInput(r.to, r.value, r.input, r.gasLimit,
                               CallContext(f.address, f.address, r.to, r.value, Evm.CallCode))
    case DelegateCall => CallInput(r.to, 0, r.input, r.gasLimit,
                                   CallContext(f.address, f.caller, r.to, f.value, Evm.DelegateCall))
  }

  function FrameOf(input: CallInput): Frame {
    Frame(input.context.address, input.context.caller, input.context.codeAddress, input.context.apparentValue,
          input.input)
  }

  /** An address without code runs the empty program, which stops at once. */
  function CodeAt(s: Setup, a: Address, p: Program): Program {
    if s.chain.code(a).Some? then p else Program([], Stop, [])
  }

  function SlotValue(s: Setup, h: Host, a: Address, key: U256): U256 {
    if a in h.storage && key in h.storage[a] then h.storage[a][key]
    else s.chain.slot(h.isExecuteVictimFunction, a, key)
  }

  function Store(storage: ContractStorage, a: Address, key: U256, value: U256): ContractStorage {
    storage[a := (if a in storage then storage[a] else map[])[key := value]]
  }

  function FetchBalance(s: Setup, h: Host, a: Address): (r: Host)
    ensures r == h.(balances := r.balances) && r.balances.Keys == h.balances.Keys + {a}
  {
    if a in h.balances then h else h.(balances := h.balances[a := s.chain.balance(h.isExecuteVictimFunction, a)])
  }

  /** `send_balance`, whose test for a balance below zero never fails. */
  function SendBalance(balances: map<Address, U256>, from: Address, to: Address, value: U256): map<Address, U256>
    requires from in balances && to in balances
  {
    balances[from := WrappingSub(balances[from], value)][to := WrappingAdd(value, balances[to])]
  }

  /** The transfer of a call whose apparent value is not zero. */
  function Fund(s: Setup, h: Host, from: Address, to: Address, apparentValue: U256, value: U256): (r: Host)
    ensures r == h.(balances := r.balances)
  {
    if apparentValue == 0 then h
    else
      var h1 := FetchBalance(s, FetchBalance(s, h, from), to);
      h1.(balances := SendBalance(h1.balances, from, to, value))
  }

  /** The address a call is about: whose code runs, for a delegate call. */
  function CalledAddress(input: CallInput): Address {
    if input.context.scheme == Evm.DelegateCall then input.context.codeAddress else input.context.address
  }

  predicate FromArgs(s: Setup, h: Host, f: Frame, a: Address) {
    || (h.callDepth > 0 && IsInputContainAddress(s, h, f.input, a, f.codeAddress))
    || a == f.caller
    || a == h.context.env.caller
  }

  predicate HitsTarget(s: Setup, h: Host, input: CallInput) {
    h.isExecuteVictimFunction && CalledAddress(input) == s.origin && Selector(input.input) == s.targetDependency
  }

  /** The checks of `call` before it enters the callee. */
  function BeforeCall(s: Setup, h: Host, f: Frame, input: CallInput): Host {
    var h1 := h.(fromArgs := FromArgs(s, h, f, CalledAddress(input)));
    if HitsTarget(s, h, input) then
      h1.(bugHit := true, history := h1.history + [Hit(CalledAddress(input), Selector(input.input))])
    else
      h1
  }

  /** The host at the entry of a call. */
  function Entered(s: Setup, h: Host, f: Frame, input: CallInput): Host {
    BeforeCall(s, h, f, input).(callDepth := h.callDepth + 1)
  }

  /** The context of a callee. */
  function EnterContext(h: Host, input: CallInput): Host {
    var env := h.context.env.(to := input.context.address, value := input.context.apparentValue, data := input.input);
    h.(context := Context(Some(input.context), env, {}, {}))
  }

  /** The fresh context a replay starts in. */
  function EnterReplay(s: Setup, h: Host, context: CallContext): Host {
    var env := Env(s.victim.from, s.victim.to, s.victim.value, s.victim.text, s.victim.blockNumber, s.victim.timestamp);
    h.(context := Context(Some(context), env, {}, {}), balances := map[], storage := map[], callDepth := 0,
       history := h.history + [ReplayStart])
  }

  /** The end of a replay that was started in `before`. */
  function LeaveReplay(h: Host, before: Host): Host {
    h.(context := before.context, balances := before.balances, storage := before.storage, callDepth := before.callDepth,
       isExecuteVictimFunction := false, noNeedForTest := true, fromArgs := false,
       history := h.history + [ReplayEnd])
  }

  function VictimFrame(s: Setup): Frame {
    Frame(s.victim.to, s.victim.from, s.victim.to, s.victim.value, s.victim.input)
  }

  /** Whether the callee's end calls for a replay. */
  predicate Replays(h: Host, result: InstructionResult, gasLimit: U64) {
    (result == Stop || result == Return || result == SelfDestruct) && !h.noNeedForTest && gasLimit != 2300
  }

  /** What the interpreter of the caller makes of a call's result. */
  function AfterCall(reason: InstructionResult, hit: bool): InstructionResult {
    if reason == CrossContractControlLeak || reason == ImplicitBugHit || reason == FatalExternalError then reason
    else if hit then ImplicitBugHit
    else Continue
  }

  function CallPrecompile(r: Request): (InstructionResult, Bytes) {
    if r.precompile.Some? then (Return, r.precompile.value) else (PrecompileError, [])
  }

  // ---------------------------------------------------------------- runs

  /** What every piece of a run keeps, and the results it cannot have. */
  predicate Kept(h: Host, h': Host, result: InstructionResult) {
    && h'.isDiffDapp == h.isDiffDapp
    && h'.callDepth == h.callDepth
    && (h.isDiffDapp ==> h'.isExecuteVictimFunction == h.isExecuteVictimFunction && result != CrossContractControlLeak)
    && (!h.isExecuteVictimFunction ==> !h'.isExecuteVictimFunction && result != ImplicitBugHit)
  }

  /** A frame changes nothing of its context but its own records. */
  predicate SameFrame(h: Host, h': Host) {
    h'.context.env == h.context.env && h'.context.callContext == h.context.callContext
  }

  function NoteLoaded(h: Host, value: U256): Host {
    h.(context := h.context.(sloadRecord := h.context.sloadRecord + {Low160(value)}))
  }

  function NoteCompared(h: Host, left: U256, right: U256): Host {
    h.(context := h.context.(compareRecord := h.context.compareRecord + {Low160(left), Low160(right)}))
  }

  function Mode(h: Host): nat {
    if h.isDiffDapp then 0 else 1
  }

  /** The loop of `run_inspect`: `Continue` when every action was performed. */
  function RunActions(s: Setup, h: Host, f: Frame, actions: seq<Action>): (r: (Host, InstructionResult))
    ensures Kept(h, r.0, r.1) && SameFrame(h, r.0)
    decreases Mode(h), actions
  {
    if actions == [] then (h, Continue)
    else
      var r := RunAction(s, h, f, actions[0]);
      if r.1 == Continue then RunActions(s, r.0, f, actions[1..]) else r
  }

  function RunProgram(s: Setup, h: Host, f: Frame, p: Program): (r: (Host, InstructionResult, Bytes))
    ensures Kept(h, r.0, r.1) && SameFrame(h, r.0) && r.1 != Continue
    decreases Mode(h), p, 0
  {
    var r := RunActions(s, h, f, p.actions);
    if r.1 == Continue then (r.0, p.exit, p.output) else (r.0, r.1, [])
  }

  /** One opcode: the host's `step`, then the opcode itself. */
  function RunAction(s: Setup, h: Host, f: Frame, action: Action): (r: (Host, InstructionResult))
    ensures Kept(h, r.0, r.1) && SameFrame(h, r.0)
    decreases Mode(h), action
  {
    match action
    case Sload(key) =>
      (NoteLoaded(h, SlotValue(s, h, f.address, key)), Continue)
    case Sstore(key, value) =>
      var h1 := h.(storage := Store(h.storage, f.address, key, value));
      if h.bugHit && !h.isDiffDapp then
        (h1.(history := h1.history + [LeakStore(f.address, key)]), CrossContractControlLeak)
      else
        (h1, Continue)
    case Compare(left, right) =>
      (NoteCompared(h, left, right), Continue)
    case Balance(a) => (FetchBalance(s, h, a), Continue)
    case FailedCall(_) => (h, Continue)
    case Call(request, callee) => RunCall(s, h, f, request, callee)
  }

  /** A CALL-family opcode: `call`, and what the interpreter of the caller makes of its result. */
  function RunCall(s: Setup, h: Host, f: Frame, request: Request, callee: Program): (r: (Host, InstructionResult))
    ensures Kept(h, r.0, r.1) && r.0.context == h.context
    decreases Mode(h), callee, 6
  {
    var r := HostCall(s, h, f, request, callee);
    (r.0, AfterCall(r.1, CallHits(s, h, f, request)))
  }

  predicate CallHits(s: Setup, h: Host, f: Frame, request: Request) {
    !Journal.IsPrecompile(request.to, s.numOfPrecompiles) && HitsTarget(s, h, InputOf(f, request))
  }

  /** `call`. */
  function HostCall(s: Setup, h: Host, f: Frame, request: Request, callee: Program): (r: (Host, InstructionResult))
    ensures Kept(h, r.0, r.1) && r.0.context == h.context
    decreases Mode(h), callee, 5
  {
    if Journal.IsPrecompile(request.to, s.numOfPrecompiles) then (h, CallPrecompile(request).0)
    else
      var input := InputOf(f, request);
      var r := DivideCall(s, Entered(s, h, f, input), input, callee);
      (r.0.(callDepth := r.0.callDepth - 1), r.1)
  }

  /** `divide_call_by_is_same_dapp`. */
  function DivideCall(s: Setup, h: Host, input: CallInput, callee: Program): (r: (Host, InstructionResult, Bytes))
    ensures Kept(h, r.0, r.1) && r.0.context == h.context
    decreases Mode(h), callee, 4
  {
    var r := ContractCall(s, EnterCallee(s, h, input), input, callee);
    (r.0.(context := h.context), r.1, r.2)
  }

  /** The call in the context of its callee. */
  function ContractCall(s: Setup, h: Host, input: CallInput, callee: Program): (r: (Host, InstructionResult, Bytes))
    ensures Kept(h, r.0, r.1)
    decreases Mode(h), callee, 3
  {
    if WithinDapp(s, h, input) then SameDappCall(s, h, input, callee)
    else CrossDappCall(s, Crossing(h), input, callee)
  }

  /** A call that is not run as a cross-DApp call. */
  predicate WithinDapp(s: Setup, h: Host, input: CallInput) {
    h.isDiffDapp || IsSame(s, input.context) || h.bugHit
  }

  function Crossing(h: Host): Host {
    h.(noNeedForTest := if h.fromArgs then false else h.noNeedForTest)
  }

  predicate IsSame(s: Setup, context: CallContext) {
    IsFromSameDapp(s.chain.dapp(context.caller), s.chain.dapp(context.address), s.chain.dapp(context.codeAddress),
                   context.scheme)
  }

  /** The context of a callee, with its transfer made. */
  function EnterCallee(s: Setup, h: Host, input: CallInput): (r: Host)
    ensures r.isDiffDapp == h.isDiffDapp && r.callDepth == h.callDepth
            && r.isExecuteVictimFunction == h.isExecuteVictimFunction
  {
    var context := input.context;
    Fund(s, EnterContext(h, input), context.caller, context.address, context.apparentValue, input.transferValue)
  }

  /** `call_forbid_control_leak`. */
  function SameDappCall(s: Setup, h: Host, input: CallInput, callee: Program): (r: (Host, InstructionResult, Bytes))
    ensures Kept(h, r.0, r.1)
    decreases Mode(h), callee, 1
  {
    if s.chain.code(input.context.codeAddress).Some? then RunProgram(s, h, FrameOf(input), callee)
    else (h, Continue, input.input)
  }

  /** The flag and the entry function set for a cross-DApp call. */
  function EnterDiff(h: Host, input: CallInput): Host {
    h.(isDiffDapp := true, entryFunction := Selector(input.input),
       history := h.history + [CrossStart(h.fromArgs, input.gasLimit)])
  }

  /** The run of the callee of a cross-DApp call, until its end is noted. */
  function RunCallee(s: Setup, h: Host, input: CallInput, callee: Program): (r: (Host, InstructionResult, Bytes))
    requires !h.isDiffDapp
    ensures r.0.isDiffDapp && r.0.callDepth == h.callDepth && r.0.isExecuteVictimFunction == h.isExecuteVictimFunction
    ensures r.1 != CrossContractControlLeak && r.1 != Continue
    ensures !h.isExecuteVictimFunction ==> r.1 != ImplicitBugHit
    decreases Mode(h), callee, 1
  {
    var h1 := EnterDiff(h, input);
    var r := RunProgram(s, h1, FrameOf(input), CodeAt(s, input.context.codeAddress, callee));
    (r.0.(history := r.0.history + [CalleeEnd(r.1)]), r.1, r.2)
  }

  /** `call_forbid_control_leak_in_diff_dapp`, and the reset of the flag that follows it. */
  function CrossDappCall(s: Setup, h: Host, input: CallInput, callee: Program): (r: (Host, InstructionResult, Bytes))
    requires !h.isDiffDapp
    ensures Kept(h, r.0, r.1)
    decreases Mode(h), callee, 2
  {
    AfterCallee(s, RunCallee(s, h, input, callee), input)
  }

  /** The end of a cross-DApp call: a replay of the victim, if the callee ended well and a test is due. */
  function AfterCallee(s: Setup, ran: (Host, InstructionResult, Bytes), input: CallInput)
    : (r: (Host, InstructionResult, Bytes))
    requires ran.0.isDiffDapp && ran.1 != CrossContractControlLeak
    ensures !r.0.isDiffDapp && r.0.callDepth == ran.0.callDepth && r.1 != CrossContractControlLeak
    ensures !ran.0.isExecuteVictimFunction ==> !r.0.isExecuteVictimFunction
    ensures ran.1 != ImplicitBugHit ==> r.1 != ImplicitBugHit
    decreases 0, CodeAt(s, s.victim.to, s.victim.program), 2
  {
    if !Replays(ran.0, ran.1, input.gasLimit) then (ran.0.(noNeedForTest := true, isDiffDapp := false), ran.1, ran.2)
    else
      var replayed := Replay(s, ran.0, input.context);
      var h1 := replayed.0.(isDiffDapp := false);
      if s.victim.input == [] then (h1, Continue, s.victim.text)
      else (h1, if replayed.1 == CrossContractControlLeak then replayed.1 else ran.1, ran.2)
  }

  /** The victim transaction, run in a fresh context that is then given up. */
  function Replay(s: Setup, h: Host, context: CallContext): (r: (Host, InstructionResult))
    requires h.isDiffDapp
    ensures r.0.isDiffDapp && r.0.callDepth == h.callDepth && !r.0.isExecuteVictimFunction
            && r.1 != CrossContractControlLeak
    ensures r.0.context == h.context && r.0.storage == h.storage
    decreases 0, CodeAt(s, s.victim.to, s.victim.program), 1
  {
    var h1 := Fund(s, h.(isExecuteVictimFunction := true), s.victim.from, s.victim.to, s.victim.value, s.victim.value);
    var h2 := EnterReplay(s, h1, context);
    if s.victim.input == [] then (LeaveReplay(h2, h1), Continue)
    else
      var r := RunProgram(s, h2, VictimFrame(s), CodeAt(s, s.victim.to, s.victim.program));
      (LeaveReplay(r.0, h1), r.1)
  }

  /** A call of an address that is no precompile, from its parts. */
  lemma HostCallIs(s: Setup, h: Host, f: Frame, request: Request, callee: Program, entered: Host,
                   returned: Host, reason: InstructionResult)
    requires !Journal.IsPrecompile(request.to, s.numOfPrecompiles)
    requires entered == Entered(s, h, f, InputOf(f, request))
    requires var r := DivideCall(s, entered, InputOf(f, request), callee); returned == r.0 && reason == r.1
    ensures returned.callDepth > 0
    ensures HostCall(s, h, f, request, callee).0 == returned.(callDepth := returned.callDepth - 1)
    ensures HostCall(s, h, f, request, callee).1 == reason
  {
  }

  lemma RunCallIs(s: Setup, h: Host, f: Frame, request: Request, callee: Program, reason: InstructionResult, hit: bool)
    requires HostCall(s, h, f, request, callee).1 == reason && CallHits(s, h, f, request) == hit
    ensures RunCall(s, h, f, request, callee).0 == HostCall(s, h, f, request, callee).0
    ensures RunCall(s, h, f, request, callee).1 == AfterCall(reason, hit)
  {
  }

  // ---------------------------------------------------------------- a whole transaction

  datatype TargetTx = TargetTx(from: Address, to: Address, value: U256, input: Bytes, program: Program)

  /** The state a transaction starts in. */
  function StartTransaction(h: Host, tx: TargetTx): Host {
    var env := Env(tx.from, tx.to, tx.value, tx.input, h.context.env.blockNumber, h.context.env.timestamp);
    h.(bugHit := false, storage := map[],
       context := h.context.(env := env, callContext := Some(CallContext(tx.to, tx.from, tx.to, tx.value, Evm.Call))))
  }

  /** `execute_from_pc`. */
  function Execute(s: Setup, h: Host, tx: TargetTx): (Host, InstructionResult, Bytes) {
    var h1 := StartTransaction(h, tx);
    if s.chain.code(tx.to).None? then (h1, Revert, [])
    else RunProgram(s, Fund(s, h1, tx.from, tx.to, tx.value, tx.value),
                    Frame(tx.to, tx.from, tx.to, tx.value, tx.input), tx.program)
  }
}
