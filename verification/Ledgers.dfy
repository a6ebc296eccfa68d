/**
  Balances beside a detector. Each replay of a victim that sends ether moves
  what its payer and its payee show, and nothing gives that back; `ShiftAfter`
  adds it up over a run, and the balances of a detected run are those of the
  plain one, so much off.
 */
module Ledgers {
  import opened Words
  import opened InstructionResults
  import opened Detector
  import opened Transparency
  import Journal

  // ---------------------------------------------------------------- calls, taken apart

  /** The host in which the code of the callee starts. */
  function Started(s: Setup, h: Host, input: CallInput): Host {
    if WithinDapp(s, h, input) then h else EnterDiff(Crossing(h), input)
  }

  // ---------------------------------------------------------------- what balances show

  type Balances = map<Address, U256>

  /** What a contract that asks now is shown. */
  function Shown(s: Setup, balances: Balances, a: Address): U256 {
    if a in balances then balances[a] else s.chain.balance(false, a)
  }

  /** How far the balances of the victim's payer and payee are off. */
  datatype Shift = Shift(payer: U256, payee: U256)

  const NO_SHIFT := Shift(0, 0)

  function At(s: Setup, shift: Shift, a: Address): U256 {
    if a == s.victim.to then shift.payee else if a == s.victim.from then shift.payer else 0
  }

  /**
    How far a replay that starts on these balances moves what `a` shows: by the
    victim's ether, and by what it has at the victim's block rather than now,
    if nobody has asked for it before.
   */
  function Moves(s: Setup, balances: Balances, a: Address): U256 {
    var start := if a in balances then 0 else WrappingSub(s.chain.balance(true, a), s.chain.balance(false, a));
    if s.victim.value == 0 then 0
    else if a == s.victim.to then WrappingAdd(start, s.victim.value)
    else if a == s.victim.from then WrappingSub(start, s.victim.value)
    else 0
  }

  function Moved(s: Setup, balances: Balances, shift: Shift): Shift {
    Shift(WrappingAdd(shift.payer, Moves(s, balances, s.victim.from)),
          WrappingAdd(shift.payee, Moves(s, balances, s.victim.to)))
  }

  /** The shift at the end of a run that began with one. */
  function ShiftAfter(s: Setup, h: Host, f: Frame, actions: seq<Action>, shift: Shift): Shift
    decreases actions
  {
    if actions == [] then shift
    else
      var r, shift1 := RunAction(s, h, f, actions[0]), ShiftAfterOne(s, h, f, actions[0], shift);
      if r.1 == Continue then ShiftAfter(s, r.0, f, actions[1..], shift1) else shift1
  }

  function ShiftAfterOne(s: Setup, h: Host, f: Frame, action: Action, shift: Shift): Shift
    decreases action
  {
    match action
    case Call(request, callee) =>
      if Journal.IsPrecompile(request.to, s.numOfPrecompiles) then shift
      else ShiftAfterCall(s, Entered(s, h, f, InputOf(f, request)), InputOf(f, request), callee, shift)
    case _ => shift
  }

  function ShiftAfterCall(s: Setup, h: Host, input: CallInput, callee: Program, shift: Shift): Shift
    decreases callee, 1
  {
    var h1 := EnterCallee(s, h, input);
    ShiftAfterReplay(s, h1, input, callee, ShiftAfterCallee(s, h1, input, callee, shift))
  }

  function ShiftAfterCallee(s: Setup, h: Host, input: CallInput, callee: Program, shift: Shift): Shift
    decreases callee, 0
  {
    if s.chain.code(input.context.codeAddress).None? then shift
    else ShiftAfter(s, Started(s, h, input), FrameOf(input), callee.actions, shift)
  }

  function ShiftAfterReplay(s: Setup, h: Host, input: CallInput, callee: Program, shift: Shift): Shift {
    if WithinDapp(s, h, input) then shift
    else
      var ran := Detector.RunCallee(s, Crossing(h), input, callee);
      if Replays(ran.0, ran.1, input.gasLimit) then Moved(s, ran.0.balances, shift) else shift
  }

  // ---------------------------------------------------------------- the balances of two runs

  /** `balances` shows what `plain` shows, so much off. */
  ghost predicate Off(s: Setup, balances: Balances, plain: Balances, shift: Shift) {
    forall a: Address :: Shown(s, balances, a) == WrappingAdd(Shown(s, plain, a), At(s, shift, a))
  }

  lemma OffNothing(s: Setup, balances: Balances)
    ensures Off(s, balances, balances, NO_SHIFT)
  {
  }

  /** An address shows the plain balance exactly if it is not off. */
  lemma ShownAlike(s: Setup, balances: Balances, plain: Balances, shift: Shift, a: Address)
    requires Off(s, balances, plain, shift)
    ensures Shown(s, balances, a) == Shown(s, plain, a) <==> At(s, shift, a) == 0
  {
    assert Shown(s, balances, a) == WrappingAdd(Shown(s, plain, a), At(s, shift, a));
  }

  /** Balances fetched now show what they showed. */
  lemma OffFetched(s: Setup, balances: Balances, plain: Balances, shift: Shift, balances1: Balances, plain1: Balances)
    requires Off(s, balances, plain, shift)
    requires forall a: Address :: Shown(s, balances1, a) == Shown(s, balances, a)
    requires forall a: Address :: Shown(s, plain1, a) == Shown(s, plain, a)
    ensures Off(s, balances1, plain1, shift)
  {
  }

  lemma FetchShows(s: Setup, h: Host, a: Address, b: Address)
    requires !h.isExecuteVictimFunction
    ensures Shown(s, FetchBalance(s, h, a).balances, b) == Shown(s, h.balances, b)
  {
  }

  lemma WorldFetchShows(s: Setup, w: World, a: Address, b: Address)
    ensures Shown(s, WorldFetch(s, w, a).balances, b) == Shown(s, w.balances, b)
  {
  }

  lemma OffRead(s: Setup, h: Host, w: World, shift: Shift, a: Address)
    requires !h.isExecuteVictimFunction && Off(s, h.balances, w.balances, shift)
    ensures Off(s, FetchBalance(s, h, a).balances, WorldFetch(s, w, a).balances, shift)
    ensures FetchBalance(s, h, a).balances[a] == Shown(s, h.balances, a)
    ensures WorldFetch(s, w, a).balances[a] == Shown(s, w.balances, a)
  {
    var h1, w1 := FetchBalance(s, h, a), WorldFetch(s, w, a);
    forall b: Address
      ensures Shown(s, h1.balances, b) == Shown(s, h.balances, b)
      ensures Shown(s, w1.balances, b) == Shown(s, w.balances, b)
    {
      FetchShows(s, h, a, b);
      WorldFetchShows(s, w, a, b);
    }
    OffFetched(s, h.balances, w.balances, shift, h1.balances, w1.balances);
  }

  /** Wrapping sums move along. */
  lemma AddOff(x: U256, v: U256, d: U256)
    ensures WrappingAdd(v, WrappingAdd(x, d)) == WrappingAdd(WrappingAdd(v, x), d)
    ensures WrappingSub(WrappingAdd(x, d), v) == WrappingAdd(WrappingSub(x, v), d)
  {
  }

  /** The same transfer on both keeps them as far apart. */
  lemma OffSent(s: Setup, balances: Balances, plain: Balances, shift: Shift, from: Address, to: Address, value: U256)
    requires Off(s, balances, plain, shift)
    requires from in balances && to in balances && from in plain && to in plain
    ensures Off(s, SendBalance(balances, from, to, value), SendBalance(plain, from, to, value), shift)
  {
    var sent, plainSent := SendBalance(balances, from, to, value), SendBalance(plain, from, to, value);
    forall a: Address
      ensures Shown(s, sent, a) == WrappingAdd(Shown(s, plainSent, a), At(s, shift, a))
    {
      assert Shown(s, balances, a) == WrappingAdd(Shown(s, plain, a), At(s, shift, a));
      AddOff(Shown(s, plain, a), value, At(s, shift, a));
    }
  }

  /** The account that a call's value goes to; none for the calls that send nothing. */
  function PayeeOf(f: Frame, r: Request): Option<Address> {
    match r.scheme
    case Call => Some(r.to)
    case CallCode => Some(f.address)
    case DelegateCall => None
    case StaticCall => None
  }

  /**
    Who pays whom when a callee is entered outside a replay: a CALL takes its value
    from the frame's account and gives it to the callee's, DELEGATECALL and STATICCALL
    move nothing. A contract that pays itself, as by CALLCODE, gains the value: its
    debit is overwritten by its credit.
   */
  lemma CallSends(s: Setup, h: Host, f: Frame, r: Request, a: Address)
    requires !h.isExecuteVictimFunction
    ensures var input := InputOf(f, r);
            var before := Shown(s, h.balances, a);
            Shown(s, EnterCallee(s, Entered(s, h, f, input), input).balances, a)
            == if PayeeOf(f, r) == Some(a) then WrappingAdd(r.value, before)
               else if PayeeOf(f, r).Some? && a == f.address then WrappingSub(before, r.value)
               else before
  {
    var input := InputOf(f, r);
    var context := input.context;
    var h0 := EnterContext(Entered(s, h, f, input), input);
    if context.apparentValue != 0 {
      var h1 := FetchBalance(s, h0, context.caller);
      FetchShows(s, h0, context.caller, a);
      FetchShows(s, h1, context.address, a);
      SendShows(s, FetchBalance(s, h1, context.address).balances, context.caller, context.address,
                input.transferValue, a);
    }
  }

  lemma SendShows(s: Setup, balances: Balances, from: Address, to: Address, value: U256, a: Address)
    requires from in balances && to in balances
    ensures Shown(s, SendBalance(balances, from, to, value), a)
         == if a == to then WrappingAdd(value, Shown(s, balances, a))
            else if a == from then WrappingSub(Shown(s, balances, a), value)
            else Shown(s, balances, a)
  {
  }

  lemma OffFunded(s: Setup, h: Host, w: World, shift: Shift, input: CallInput)
    requires !h.isExecuteVictimFunction && Off(s, h.balances, w.balances, shift)
    ensures Off(s, EnterCallee(s, h, input).balances, WorldFund(s, w, input).balances, shift)
  {
    var context := input.context;
    if context.apparentValue != 0 {
      var h0 := EnterContext(h, input);
      var h1, w1 := FetchBalance(s, h0, context.caller), WorldFetch(s, w, context.caller);
      var h2, w2 := FetchBalance(s, h1, context.address), WorldFetch(s, w1, context.address);
      OffRead(s, h0, w, shift, context.caller);
      OffRead(s, h1, w1, shift, context.address);
      OffSent(s, h2.balances, w2.balances, shift, context.caller, context.address, input.transferValue);
    }
  }

  /** What the victim's transfer works on: balances of its own block, where nobody has asked before. */
  function VictimBase(s: Setup, balances: Balances, a: Address): U256 {
    if a in balances then balances[a] else s.chain.balance(true, a)
  }

  lemma VictimSends(s: Setup, h: Host, a: Address)
    requires s.victim.value != 0
    ensures Shown(s, VictimFunded(s, h), a)
         == if a == s.victim.to then WrappingAdd(s.victim.value, VictimBase(s, h.balances, a))
            else if a == s.victim.from then WrappingSub(VictimBase(s, h.balances, a), s.victim.value)
            else Shown(s, h.balances, a)
  {
  }

  /** What a replay's transfer moves. */
  lemma VictimMoves(s: Setup, h: Host, a: Address)
    ensures Shown(s, VictimFunded(s, h), a) == WrappingAdd(Shown(s, h.balances, a), Moves(s, h.balances, a))
  {
    if s.victim.value != 0 {
      VictimSends(s, h, a);
      MovedFrom(Shown(s, h.balances, a), VictimBase(s, h.balances, a), s.victim.value);
    }
  }

  lemma MovedFrom(shown: U256, base: U256, value: U256)
    ensures WrappingAdd(value, base) == WrappingAdd(shown, WrappingAdd(WrappingSub(base, shown), value))
    ensures WrappingSub(base, value) == WrappingAdd(shown, WrappingSub(WrappingSub(base, shown), value))
  {
  }

  lemma AddTwice(x: U256, d: U256, e: U256)
    ensures WrappingAdd(WrappingAdd(x, d), e) == WrappingAdd(x, WrappingAdd(d, e))
  {
  }

  lemma OffMoved(s: Setup, h: Host, plain: Balances, shift: Shift)
    requires Off(s, h.balances, plain, shift)
    ensures Off(s, VictimFunded(s, h), plain, Moved(s, h.balances, shift))
  {
    forall a: Address
      ensures Shown(s, VictimFunded(s, h), a) == WrappingAdd(Shown(s, plain, a), At(s, Moved(s, h.balances, shift), a))
    {
      VictimMoves(s, h, a);
      assert Shown(s, h.balances, a) == WrappingAdd(Shown(s, plain, a), At(s, shift, a));
      AddTwice(Shown(s, plain, a), At(s, shift, a), Moves(s, h.balances, a));
    }
  }

  // ---------------------------------------------------------------- whole runs

  /** Over every run that reports no leak, the balances end off by exactly what the replays moved. */
  lemma {:induction false} BalancesAreOff(s: Setup, h: Host, w: World, f: Frame, actions: seq<Action>, shift: Shift)
    requires Holds(s, h, w) && Off(s, h.balances, w.balances, shift)
    ensures var r, r' := RunActions(s, h, f, actions), PlainActions(s, w, f, actions);
            r.1 != CrossContractControlLeak ==>
              Off(s, r.0.balances, r'.0.balances, ShiftAfter(s, h, f, actions, shift))
    decreases actions
  {
    if actions != [] {
      OffAfterOne(s, h, w, f, actions[0], shift);
      SameAction(s, h, w, f, actions[0]);
      var r, r' := RunAction(s, h, f, actions[0]), PlainAction(s, w, f, actions[0]);
      var shift1 := ShiftAfterOne(s, h, f, actions[0], shift);
      if r.1 == Continue {
        BalancesAreOff(s, r.0, r'.0, f, actions[1..], shift1);
      }
    }
  }

  lemma {:induction false} OffAfterOne(s: Setup, h: Host, w: World, f: Frame, action: Action, shift: Shift)
    requires Holds(s, h, w) && Off(s, h.balances, w.balances, shift)
    ensures var r, r' := RunAction(s, h, f, action), PlainAction(s, w, f, action);
            r.1 != CrossContractControlLeak ==>
              Off(s, r.0.balances, r'.0.balances, ShiftAfterOne(s, h, f, action, shift))
    decreases action
  {
    match action
    case Balance(a) => OffRead(s, h, w, shift, a);
    case Call(request, callee) =>
      if Journal.IsPrecompile(request.to, s.numOfPrecompiles) {
        PrecompileMovesNothing(s, h, w, f, request, callee);
      } else {
        OffAfterOpcode(s, h, w, f, request, callee, InputOf(f, request), Entered(s, h, f, InputOf(f, request)), shift);
      }
    case _ =>
  }

  lemma PrecompileMovesNothing(s: Setup, h: Host, w: World, f: Frame, request: Request, callee: Program)
    requires Journal.IsPrecompile(request.to, s.numOfPrecompiles)
    ensures RunAction(s, h, f, Call(request, callee)).0 == h && PlainAction(s, w, f, Call(request, callee)).0 == w
  {
    CalledIs(s, h, f, request, callee);
    assert InputOf(f, request).contract == request.to;
  }

  /** A CALL-family opcode, the call not being one of a precompile. */
  lemma {:induction false} OffAfterOpcode(s: Setup, h: Host, w: World, f: Frame, request: Request, callee: Program,
                                          input: CallInput, h2: Host, shift: Shift)
    requires Holds(s, h, w) && Off(s, h.balances, w.balances, shift)
    requires !Journal.IsPrecompile(request.to, s.numOfPrecompiles)
    requires input == InputOf(f, request) && h2 == Entered(s, h, f, input)
    ensures var r, r' := RunAction(s, h, f, Call(request, callee)), PlainAction(s, w, f, Call(request, callee));
            r.1 != CrossContractControlLeak ==>
              Off(s, r.0.balances, r'.0.balances, ShiftAfterOne(s, h, f, Call(request, callee), shift))
    decreases callee, 3
  {
    HoldsElsewhere(s, h, w, h2);
    OffAfterCall(s, h2, w, input, callee, shift);
    CallIs(s, h, f, request, callee, h2);
    PlainCallIs(s, w, f, request, callee);
    ShiftIs(s, h, f, request, callee, input, h2, shift);
  }

  lemma ShiftIs(s: Setup, h: Host, f: Frame, request: Request, callee: Program, input: CallInput, h2: Host,
                shift: Shift)
    requires !Journal.IsPrecompile(request.to, s.numOfPrecompiles)
    requires input == InputOf(f, request) && h2 == Entered(s, h, f, input)
    ensures ShiftAfterOne(s, h, f, Call(request, callee), shift) == ShiftAfterCall(s, h2, input, callee, shift)
  {
  }

  /** A call that is entered, seen from its caller. */
  lemma CallIs(s: Setup, h: Host, f: Frame, request: Request, callee: Program, h2: Host)
    requires !h.isExecuteVictimFunction && !Journal.IsPrecompile(request.to, s.numOfPrecompiles)
    requires h2 == Entered(s, h, f, InputOf(f, request))
    ensures var r, called := RunAction(s, h, f, Call(request, callee)), DivideCall(s, h2, InputOf(f, request), callee);
            && r.0.balances == called.0.balances
            && (r.1 == CrossContractControlLeak <==> called.1 == CrossContractControlLeak)
  {
    EnteredCallIs(s, h, f, request, callee, h2);
    CalledIs(s, h, f, request, callee);
  }

  lemma CalledIs(s: Setup, h: Host, f: Frame, request: Request, callee: Program)
    ensures RunAction(s, h, f, Call(request, callee)) == RunCall(s, h, f, request, callee)
  {
  }

  /** A call that has been entered. */
  lemma {:induction false} OffAfterCall(s: Setup, h: Host, w: World, input: CallInput, callee: Program, shift: Shift)
    requires Holds(s, h, w) && Off(s, h.balances, w.balances, shift)
    ensures var r, r' := DivideCall(s, h, input, callee), PlainCallee(s, WorldFund(s, w, input), input, callee);
            r.1 != CrossContractControlLeak ==>
              Off(s, r.0.balances, r'.0.balances, ShiftAfterCall(s, h, input, callee, shift))
    decreases callee, 2
  {
    var h1, w1 := EnterCallee(s, h, input), WorldFund(s, w, input);
    OffFunded(s, h, w, shift, input);
    HoldsEntered(s, h, w, input);
    if WithinDapp(s, h1, input) {
      OffWithinDapp(s, h1, w1, input, callee, shift);
    } else {
      OffAcross(s, h1, w1, input, callee, shift);
    }
    DivideIs(s, h, input, callee);
  }

  lemma DivideIs(s: Setup, h: Host, input: CallInput, callee: Program)
    ensures var r, called := DivideCall(s, h, input, callee), ContractCall(s, EnterCallee(s, h, input), input, callee);
            r.0.balances == called.0.balances && r.1 == called.1 && r.2 == called.2
  {
  }

  lemma {:induction false} OffWithinDapp(s: Setup, h: Host, w: World, input: CallInput, callee: Program, shift: Shift)
    requires Holds(s, h, w) && Off(s, h.balances, w.balances, shift) && WithinDapp(s, h, input)
    ensures var r, r' := SameDappCall(s, h, input, callee), PlainCallee(s, w, input, callee);
            r.1 != CrossContractControlLeak ==>
              Off(s, r.0.balances, r'.0.balances, ShiftAfterCallee(s, h, input, callee, shift))
    decreases callee, 1
  {
    if s.chain.code(input.context.codeAddress).Some? {
      BalancesAreOff(s, h, w, FrameOf(input), callee.actions, shift);
    }
  }

  lemma {:induction false} OffAcross(s: Setup, h: Host, w: World, input: CallInput, callee: Program, shift: Shift)
    requires Holds(s, h, w) && Off(s, h.balances, w.balances, shift) && !WithinDapp(s, h, input)
    ensures var r, r' := CrossDappCall(s, Crossing(h), input, callee), PlainCallee(s, w, input, callee);
            Off(s, r.0.balances, r'.0.balances,
                ShiftAfterReplay(s, h, input, callee, ShiftAfterCallee(s, h, input, callee, shift)))
    decreases callee, 1
  {
    var h2 := Crossing(h);
    var shift1 := ShiftAfterCallee(s, h, input, callee, shift);
    OffCallee(s, h, w, input, callee, shift);
    var ran := Detector.RunCallee(s, h2, input, callee);
    if Replays(ran.0, ran.1, input.gasLimit) {
      ReplayIsTransparent(s, ran.0, input.context);
      OffMoved(s, ran.0, PlainCallee(s, w, input, callee).0.balances, shift1);
    }
  }

  lemma {:induction false} OffCallee(s: Setup, h: Host, w: World, input: CallInput, callee: Program, shift: Shift)
    requires Holds(s, h, w) && Off(s, h.balances, w.balances, shift) && !WithinDapp(s, h, input)
    ensures var ran, r' := Detector.RunCallee(s, Crossing(h), input, callee), PlainCallee(s, w, input, callee);
            Off(s, ran.0.balances, r'.0.balances, ShiftAfterCallee(s, h, input, callee, shift))
    decreases callee, 0
  {
    var h2 := Started(s, h, input);
    if s.chain.code(input.context.codeAddress).Some? {
      BalancesAreOff(s, h2, w, FrameOf(input), callee.actions, shift);
      NoLeakInside(s, h2, input, callee);
    }
    CalleeIs(s, h, input, callee, h2);
    PlainCalleeIs(s, w, input, callee);
  }

  lemma CalleeIs(s: Setup, h: Host, input: CallInput, callee: Program, h2: Host)
    requires !WithinDapp(s, h, input) && h2 == Started(s, h, input)
    ensures Detector.RunCallee(s, Crossing(h), input, callee).0.balances
         == if s.chain.code(input.context.codeAddress).None? then h.balances
            else RunActions(s, h2, FrameOf(input), callee.actions).0.balances
  {
    ProgramIs(s, h2, FrameOf(input), CodeAt(s, input.context.codeAddress, callee));
  }

  lemma ProgramIs(s: Setup, h: Host, f: Frame, p: Program)
    ensures RunProgram(s, h, f, p).0 == if p.actions == [] then h else RunActions(s, h, f, p.actions).0
  {
  }

  lemma PlainCalleeIs(s: Setup, w: World, input: CallInput, callee: Program)
    ensures PlainCallee(s, w, input, callee).0
         == if s.chain.code(input.context.codeAddress).None? then w
            else PlainActions(s, w, FrameOf(input), callee.actions).0
  {
  }

  /** Inside a cross-DApp call no leak is reported. */
  lemma NoLeakInside(s: Setup, h: Host, input: CallInput, callee: Program)
    requires h.isDiffDapp
    ensures RunActions(s, h, FrameOf(input), callee.actions).1 != CrossContractControlLeak
  {
    var r := RunActions(s, h, FrameOf(input), callee.actions);
    assert Kept(h, r.0, r.1);
  }
}
