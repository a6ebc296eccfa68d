/**
  What contracts see. Programs are fixed trees, so it is not enough that a
  detected run and a plain one of the same program end alike: a contract that
  sees something else may act otherwise. Here both runs list what their
  contracts see, the values of loads and balances and the results and data of
  calls, and the lists agree exactly if no call echoes its input, no victim
  without input is replayed over other data, and no balance is read that
  victims have moved.
 */
module Observations {
  import opened Words
  import opened InstructionResults
  import opened Detector
  import opened Transparency
  import opened Ledgers
  import Journal
  import Evm

  /** The success flag pushed, whether memory is written, and the return data. */
  datatype Seen =
    | SeenSlot(value: U256)
    | SeenBalance(value: U256)
    | SeenCall(success: bool, copied: bool, data: Bytes)

  /** What the calling interpreter shows its contract of a call, unless it stops. */
  function CallSeen(result: InstructionResult, data: Bytes): seq<Seen> {
    if AfterCall(result, false) == Continue then [SeenCall(result.IsOk(), result.IsOk() || result.IsRevert(), data)]
    else []
  }

  // ---------------------------------------------------------------- the detected run

  function Observed(s: Setup, h: Host, f: Frame, actions: seq<Action>): seq<Seen>
    decreases actions
  {
    if actions == [] then []
    else
      var r := RunAction(s, h, f, actions[0]);
      ObservedOne(s, h, f, actions[0]) + if r.1 == Continue then Observed(s, r.0, f, actions[1..]) else []
  }

  function ObservedOne(s: Setup, h: Host, f: Frame, action: Action): seq<Seen>
    decreases action
  {
    match action
    case Sload(key) => [SeenSlot(SlotValue(s, h, f.address, key))]
    case Balance(a) => [SeenBalance(FetchBalance(s, h, a).balances[a])]
    case Call(request, callee) =>
      if Journal.IsPrecompile(request.to, s.numOfPrecompiles)
        then CallSeen(CallPrecompile(request).0, CallPrecompile(request).1)
      else
        ObservedCall(s, Entered(s, h, f, InputOf(f, request)), InputOf(f, request), callee)
    case _ => []
  }

  /** What the contracts of the callee see, and what its end shows the caller. */
  function ObservedCall(s: Setup, h: Host, input: CallInput, callee: Program): seq<Seen>
    decreases callee, 1
  {
    var r := DivideCall(s, h, input, callee);
    ObservedCallee(s, EnterCallee(s, h, input), input, callee) + CallSeen(r.1, r.2)
  }

  /** What the contracts of a callee see; a victim replayed at its end is none of them. */
  function ObservedCallee(s: Setup, h: Host, input: CallInput, callee: Program): seq<Seen>
    decreases callee, 0
  {
    if s.chain.code(input.context.codeAddress).None? then []
    else Observed(s, Started(s, h, input), FrameOf(input), callee.actions)
  }

  // ---------------------------------------------------------------- the plain run

  function WorldSlot(s: Setup, w: World, a: Address, key: U256): U256 {
    if a in w.storage && key in w.storage[a] then w.storage[a][key] else s.chain.slot(false, a, key)
  }

  function PlainObserved(s: Setup, w: World, f: Frame, actions: seq<Action>): seq<Seen>
    decreases actions
  {
    if actions == [] then []
    else
      var r := PlainAction(s, w, f, actions[0]);
      PlainObservedOne(s, w, f, actions[0]) + if r.1 == Continue then PlainObserved(s, r.0, f, actions[1..]) else []
  }

  function PlainObservedOne(s: Setup, w: World, f: Frame, action: Action): seq<Seen>
    decreases action
  {
    match action
    case Sload(key) => [SeenSlot(WorldSlot(s, w, f.address, key))]
    case Balance(a) => [SeenBalance(WorldFetch(s, w, a).balances[a])]
    case Call(request, callee) =>
      if Journal.IsPrecompile(request.to, s.numOfPrecompiles)
        then CallSeen(CallPrecompile(request).0, CallPrecompile(request).1)
      else
        PlainObservedCall(s, WorldFund(s, w, InputOf(f, request)), InputOf(f, request), callee)
    case _ => []
  }

  function PlainObservedCall(s: Setup, w: World, input: CallInput, callee: Program): seq<Seen>
    decreases callee, 1
  {
    var r := PlainCallee(s, w, input, callee);
    PlainObservedCallee(s, w, input, callee) + CallSeen(r.1, r.2)
  }

  function PlainObservedCallee(s: Setup, w: World, input: CallInput, callee: Program): seq<Seen>
    decreases callee, 0
  {
    if s.chain.code(input.context.codeAddress).None? then [] else PlainObserved(s, w, FrameOf(input), callee.actions)
  }

  // ---------------------------------------------------------------- where they can differ

  /**
    The call shows its caller what a plain one would: within a DApp its callee
    has code or got no input to echo, and across DApps no victim without input
    was replayed whose text is not the data returned.
   */
  predicate ShowsPlain(s: Setup, h: Host, input: CallInput, callee: Program) {
    if WithinDapp(s, h, input) then s.chain.code(input.context.codeAddress).Some? || input.input == []
    else
      var ran := Detector.RunCallee(s, CrossingHost(s, h, input), input, callee);
      !(Replays(ran.0, ran.1, input.gasLimit) && s.victim.input == []) || ran.2 == s.victim.text
  }

  /** The host a cross-DApp call starts in. */
  function CrossingHost(s: Setup, h: Host, input: CallInput): (r: Host)
    requires !WithinDapp(s, h, input)
    ensures !r.isDiffDapp
  {
    Crossing(h)
  }

  /** Every call that is performed does, unless it stops its caller, and every balance read is where victims left it. */
  predicate Undisturbed(s: Setup, h: Host, f: Frame, actions: seq<Action>, shift: Shift)
    decreases actions
  {
    if actions == [] then true
    else
      var r := RunAction(s, h, f, actions[0]);
      && UndisturbedOne(s, h, f, actions[0], shift)
      && (r.1 == Continue ==> Undisturbed(s, r.0, f, actions[1..], ShiftAfterOne(s, h, f, actions[0], shift)))
  }

  predicate UndisturbedOne(s: Setup, h: Host, f: Frame, action: Action, shift: Shift)
    decreases action
  {
    match action
    case Balance(a) => At(s, shift, a) == 0
    case Call(request, callee) =>
      if Journal.IsPrecompile(request.to, s.numOfPrecompiles) then true
      else
        UndisturbedCall(s, Entered(s, h, f, InputOf(f, request)), InputOf(f, request), callee, shift)
    case _ => true
  }

  predicate UndisturbedCall(s: Setup, h: Host, input: CallInput, callee: Program, shift: Shift)
    decreases callee, 1
  {
    && UndisturbedCallee(s, EnterCallee(s, h, input), input, callee, shift)
    && (AfterCall(DivideCall(s, h, input, callee).1, false) == Continue ==>
          ShowsPlain(s, EnterCallee(s, h, input), input, callee))
  }

  predicate UndisturbedCallee(s: Setup, h: Host, input: CallInput, callee: Program, shift: Shift)
    decreases callee, 0
  {
    s.chain.code(input.context.codeAddress).None?
      || Undisturbed(s, Started(s, h, input), FrameOf(input), callee.actions, shift)
  }

  // ---------------------------------------------------------------- the comparison

  lemma SeqsAlike<T>(a: seq<T>, b: seq<T>, c: seq<T>, d: seq<T>)
    requires |a| == |c|
    ensures a + b == c + d <==> a == c && b == d
    ensures a == c && b <= d ==> a + b <= c + d
  {
    if a + b == c + d {
      assert a == (a + b)[..|a|] && c == (c + d)[..|a|];
      assert b == (a + b)[|a|..] && d == (c + d)[|a|..];
    }
  }

  /**
    Two ends of a call show the caller the same, unless the first is a leak, exactly if `shows`, or
    it stops the caller.
   */
  ghost predicate EndsAlike(result: InstructionResult, data: Bytes, result': InstructionResult, data': Bytes,
                            shows: bool) {
    result != CrossContractControlLeak ==>
      && |CallSeen(result, data)| == |CallSeen(result', data')|
      && (CallSeen(result, data) == CallSeen(result', data') <==> (AfterCall(result, false) == Continue ==> shows))
  }

  /** What is seen of one call, its frame apart. */
  lemma CallSeenAlike(s: Setup, h: Host, input: CallInput, callee: Program, h1: Host, w1: World)
    requires h1 == EnterCallee(s, h, input) && Holds(s, h1, w1)
    ensures var r, r' := DivideCall(s, h, input, callee), PlainCallee(s, w1, input, callee);
            EndsAlike(r.1, r.2, r'.1, r'.2, ShowsPlain(s, h1, input, callee))
  {
    DivideIs(s, h, input, callee);
    if WithinDapp(s, h1, input) {
      SeenWithinDapp(s, h1, w1, input, callee);
    } else {
      SeenAcross(s, Crossing(h1), w1, input, callee);
    }
  }

  lemma SeenWithinDapp(s: Setup, h: Host, w: World, input: CallInput, callee: Program)
    requires Holds(s, h, w)
    ensures var r, r' := SameDappCall(s, h, input, callee), PlainCallee(s, w, input, callee);
            r.1 != CrossContractControlLeak ==>
              && |CallSeen(r.1, r.2)| == |CallSeen(r'.1, r'.2)|
              && (CallSeen(r.1, r.2) == CallSeen(r'.1, r'.2)
                  <==> (AfterCall(r.1, false) == Continue ==>
                          s.chain.code(input.context.codeAddress).Some? || input.input == []))
  {
    if s.chain.code(input.context.codeAddress).Some? {
      DetectorIsTransparent(s, h, w, FrameOf(input), callee);
    }
  }

  lemma DataSeen(result: InstructionResult, data: Bytes, data': Bytes)
    requires AfterCall(result, false) == Continue
    ensures |CallSeen(result, data)| == |CallSeen(result, data')|
    ensures CallSeen(result, data) == CallSeen(result, data') <==> data == data'
  {
    assert CallSeen(result, data)[0].data == data && CallSeen(result, data')[0].data == data';
  }

  lemma SeenAcross(s: Setup, h: Host, w: World, input: CallInput, callee: Program)
    requires Holds(s, h, w) && !h.isDiffDapp
    ensures var r, r' := CrossDappCall(s, h, input, callee), PlainCallee(s, w, input, callee);
            var ran := Detector.RunCallee(s, h, input, callee);
            && |CallSeen(r.1, r.2)| == |CallSeen(r'.1, r'.2)|
            && (CallSeen(r.1, r.2) == CallSeen(r'.1, r'.2)
                <==> !(Replays(ran.0, ran.1, input.gasLimit) && s.victim.input == []) || ran.2 == s.victim.text)
  {
    SameCallee(s, h, w, input, callee);
    var ran := Detector.RunCallee(s, h, input, callee);
    CalleeEnds(s, ran, input);
    EndSeen(s, ran, input, AfterCallee(s, ran, input));
  }

  lemma CalleeEnds(s: Setup, ran: (Host, InstructionResult, Bytes), input: CallInput)
    requires ran.0.isDiffDapp && ran.1 != CrossContractControlLeak
    ensures var r := AfterCallee(s, ran, input);
            if !Replays(ran.0, ran.1, input.gasLimit) then r.1 == ran.1 && r.2 == ran.2
            else if s.victim.input == [] then r.1 == Continue && r.2 == s.victim.text
            else r.1 == ran.1 && r.2 == ran.2
  {
  }

  /** What the end of a cross-DApp call shows, against the callee's own end. */
  lemma EndSeen(s: Setup, ran: (Host, InstructionResult, Bytes), input: CallInput, r: (Host, InstructionResult, Bytes))
    requires ran.0.isDiffDapp
    requires if !Replays(ran.0, ran.1, input.gasLimit) then r.1 == ran.1 && r.2 == ran.2
             else if s.victim.input == [] then r.1 == Continue && r.2 == s.victim.text
             else r.1 == ran.1 && r.2 == ran.2
    ensures |CallSeen(r.1, r.2)| == |CallSeen(ran.1, ran.2)|
    ensures CallSeen(r.1, r.2) == CallSeen(ran.1, ran.2)
       <==> !(Replays(ran.0, ran.1, input.gasLimit) && s.victim.input == []) || ran.2 == s.victim.text
  {
    if Replays(ran.0, ran.1, input.gasLimit) {
      assert CallSeen(Continue, s.victim.text) == CallSeen(ran.1, s.victim.text);
      DataSeen(ran.1, ran.2, s.victim.text);
    }
  }

  /** Lists of what was seen, by runs of which the first may have ended in a leak. */
  ghost predicate Alike(seen: seq<Seen>, plain: seq<Seen>, leaked: bool, undisturbed: bool) {
    && (!leaked ==> |seen| == |plain| && (seen == plain <==> undisturbed))
    && (undisturbed ==> seen <= plain)
  }

  lemma AlikeThen(a: seq<Seen>, b: seq<Seen>, c: seq<Seen>, d: seq<Seen>, leaked: bool, first: bool, second: bool)
    requires Alike(a, c, false, first) && Alike(b, d, leaked, second)
    ensures Alike(a + b, c + d, leaked, first && second)
  {
    SeqsAlike(a, b, c, d);
  }

  lemma AlikeLeaked(a: seq<Seen>, c: seq<Seen>, d: seq<Seen>, undisturbed: bool)
    requires Alike(a, c, true, undisturbed)
    ensures Alike(a, c + d, true, undisturbed)
  {
  }

  /** A list of actions, taken apart. */
  lemma FirstObserved(s: Setup, h: Host, f: Frame, actions: seq<Action>, shift: Shift, r: (Host, InstructionResult),
                      rest: seq<Seen>, restUndisturbed: bool)
    requires actions != [] && r == RunAction(s, h, f, actions[0])
    requires rest == if r.1 == Continue then Observed(s, r.0, f, actions[1..]) else []
    requires restUndisturbed <==>
               (r.1 == Continue ==> Undisturbed(s, r.0, f, actions[1..], ShiftAfterOne(s, h, f, actions[0], shift)))
    ensures Observed(s, h, f, actions) == ObservedOne(s, h, f, actions[0]) + rest
    ensures Undisturbed(s, h, f, actions, shift) <==> UndisturbedOne(s, h, f, actions[0], shift) && restUndisturbed
    ensures RunActions(s, h, f, actions).1 == if r.1 == Continue then RunActions(s, r.0, f, actions[1..]).1 else r.1
  {
  }

  lemma FirstPlain(s: Setup, w: World, f: Frame, actions: seq<Action>, r: (World, InstructionResult), rest: seq<Seen>)
    requires actions != [] && r == PlainAction(s, w, f, actions[0])
    requires rest == if r.1 == Continue then PlainObserved(s, r.0, f, actions[1..]) else []
    ensures PlainObserved(s, w, f, actions) == PlainObservedOne(s, w, f, actions[0]) + rest
  {
  }

  /** What is seen in both runs of a program: the same, exactly if nothing shows more than a plain run would. */
  lemma {:induction false} ObservationsAlike(s: Setup, h: Host, w: World, f: Frame, actions: seq<Action>, shift: Shift)
    requires Holds(s, h, w) && Off(s, h.balances, w.balances, shift)
    ensures Alike(Observed(s, h, f, actions), PlainObserved(s, w, f, actions),
                  RunActions(s, h, f, actions).1 == CrossContractControlLeak, Undisturbed(s, h, f, actions, shift))
    decreases actions
  {
    if actions != [] {
      OneAlike(s, h, w, f, actions[0], shift);
      SameAction(s, h, w, f, actions[0]);
      OffAfterOne(s, h, w, f, actions[0], shift);
      var r, r' := RunAction(s, h, f, actions[0]), PlainAction(s, w, f, actions[0]);
      var shift1 := ShiftAfterOne(s, h, f, actions[0], shift);
      if r.1 == Continue {
        ObservationsAlike(s, r.0, r'.0, f, actions[1..], shift1);
      }
      RestAlike(s, h, w, f, actions, shift, r, r', shift1);
    }
  }

  lemma RestAlike(s: Setup, h: Host, w: World, f: Frame, actions: seq<Action>, shift: Shift,
                  r: (Host, InstructionResult), r': (World, InstructionResult), shift1: Shift)
    requires actions != [] && r == RunAction(s, h, f, actions[0]) && r' == PlainAction(s, w, f, actions[0])
    requires shift1 == ShiftAfterOne(s, h, f, actions[0], shift)
    requires r.1 == CrossContractControlLeak || r.1 == r'.1
    requires Alike(ObservedOne(s, h, f, actions[0]), PlainObservedOne(s, w, f, actions[0]),
                   r.1 == CrossContractControlLeak, UndisturbedOne(s, h, f, actions[0], shift))
    requires r.1 == Continue ==>
               Alike(Observed(s, r.0, f, actions[1..]), PlainObserved(s, r'.0, f, actions[1..]),
                     RunActions(s, r.0, f, actions[1..]).1 == CrossContractControlLeak,
                     Undisturbed(s, r.0, f, actions[1..], shift1))
    ensures Alike(Observed(s, h, f, actions), PlainObserved(s, w, f, actions),
                  RunActions(s, h, f, actions).1 == CrossContractControlLeak, Undisturbed(s, h, f, actions, shift))
  {
    var rest := if r.1 == Continue then Observed(s, r.0, f, actions[1..]) else [];
    var plainRest := if r'.1 == Continue then PlainObserved(s, r'.0, f, actions[1..]) else [];
    var last := if r.1 == Continue then RunActions(s, r.0, f, actions[1..]).1 else r.1;
    var restUndisturbed := r.1 == Continue ==> Undisturbed(s, r.0, f, actions[1..], shift1);
    FirstObserved(s, h, f, actions, shift, r, rest, restUndisturbed);
    FirstPlain(s, w, f, actions, r', plainRest);
    ListsAlike(ObservedOne(s, h, f, actions[0]), PlainObservedOne(s, w, f, actions[0]), rest, plainRest, r.1, r'.1,
               last, UndisturbedOne(s, h, f, actions[0], shift), restUndisturbed);
  }

  lemma ListsAlike(seen: seq<Seen>, plain: seq<Seen>, rest: seq<Seen>, plainRest: seq<Seen>, first: InstructionResult,
                   plainFirst: InstructionResult, last: InstructionResult, undisturbed: bool, restUndisturbed: bool)
    requires first == CrossContractControlLeak || first == plainFirst
    requires Alike(seen, plain, first == CrossContractControlLeak, undisturbed)
    requires first == Continue ==> Alike(rest, plainRest, last == CrossContractControlLeak, restUndisturbed)
    requires first != Continue ==> rest == [] && restUndisturbed && last == first
    requires plainFirst != Continue ==> plainRest == []
    ensures Alike(seen + rest, plain + plainRest, last == CrossContractControlLeak, undisturbed && restUndisturbed)
  {
    if first == CrossContractControlLeak {
      AlikeLeaked(seen, plain, plainRest, undisturbed);
      assert seen + [] == seen;
    } else {
      AlikeThen(seen, rest, plain, plainRest, last == CrossContractControlLeak, undisturbed, restUndisturbed);
    }
  }

  lemma {:induction false} OneAlike(s: Setup, h: Host, w: World, f: Frame, action: Action, shift: Shift)
    requires Holds(s, h, w) && Off(s, h.balances, w.balances, shift)
    ensures Alike(ObservedOne(s, h, f, action), PlainObservedOne(s, w, f, action),
                  RunAction(s, h, f, action).1 == CrossContractControlLeak, UndisturbedOne(s, h, f, action, shift))
    decreases action
  {
    match action
    case Balance(a) => BalanceAlike(s, h, w, f, a, shift);
    case Call(request, callee) =>
      if !Journal.IsPrecompile(request.to, s.numOfPrecompiles) {
        CallAlike(s, h, w, f, request, callee, InputOf(f, request), Entered(s, h, f, InputOf(f, request)), shift);
      }
    case _ =>
  }

  /** A balance is seen as it is without a detector exactly if victims have not moved it. */
  lemma BalanceAlike(s: Setup, h: Host, w: World, f: Frame, a: Address, shift: Shift)
    requires Holds(s, h, w) && Off(s, h.balances, w.balances, shift)
    ensures ObservedOne(s, h, f, Balance(a)) == [SeenBalance(Shown(s, h.balances, a))]
    ensures PlainObservedOne(s, w, f, Balance(a)) == [SeenBalance(Shown(s, w.balances, a))]
    ensures ObservedOne(s, h, f, Balance(a)) == PlainObservedOne(s, w, f, Balance(a)) <==> At(s, shift, a) == 0
  {
    OffRead(s, h, w, shift, a);
    ShownAlike(s, h.balances, w.balances, shift, a);
    var seen, plain := SeenBalance(Shown(s, h.balances, a)), SeenBalance(Shown(s, w.balances, a));
    assert [seen] == [plain] ==> [seen][0] == [plain][0];
  }

  lemma CallPlain(s: Setup, w: World, f: Frame, request: Request, callee: Program, input: CallInput)
    requires !Journal.IsPrecompile(request.to, s.numOfPrecompiles) && input == InputOf(f, request)
    ensures PlainObservedOne(s, w, f, Call(request, callee))
            == PlainObservedCall(s, WorldFund(s, w, input), input, callee)
  {
  }

  lemma CallObserved(s: Setup, h: Host, f: Frame, request: Request, callee: Program, input: CallInput, h2: Host,
                     shift: Shift)
    requires !Journal.IsPrecompile(request.to, s.numOfPrecompiles) && input == InputOf(f, request)
    requires h2 == Entered(s, h, f, input)
    ensures ObservedOne(s, h, f, Call(request, callee)) == ObservedCall(s, h2, input, callee)
    ensures UndisturbedOne(s, h, f, Call(request, callee), shift) <==> UndisturbedCall(s, h2, input, callee, shift)
  {
  }

  lemma {:induction false} CallAlike(s: Setup, h: Host, w: World, f: Frame, request: Request, callee: Program,
                                     input: CallInput, h2: Host, shift: Shift)
    requires Holds(s, h, w) && Off(s, h.balances, w.balances, shift)
    requires !Journal.IsPrecompile(request.to, s.numOfPrecompiles) && input == InputOf(f, request)
    requires h2 == Entered(s, h, f, input)
    ensures Alike(ObservedOne(s, h, f, Call(request, callee)), PlainObservedOne(s, w, f, Call(request, callee)),
                  RunAction(s, h, f, Call(request, callee)).1 == CrossContractControlLeak,
                  UndisturbedOne(s, h, f, Call(request, callee), shift))
    decreases callee, 2
  {
    HoldsElsewhere(s, h, w, h2);
    HoldsEntered(s, h2, w, input);
    OffFunded(s, h2, w, shift, input);
    EnteredAlike(s, h2, input, callee, EnterCallee(s, h2, input), WorldFund(s, w, input), shift);
    CallIs(s, h, f, request, callee, h2);
    CallObserved(s, h, f, request, callee, input, h2, shift);
    CallPlain(s, w, f, request, callee, input);
  }

  /** A call that has been entered. */
  lemma {:induction false} EnteredAlike(s: Setup, h: Host, input: CallInput, callee: Program, h1: Host, w1: World,
                                        shift: Shift)
    requires h1 == EnterCallee(s, h, input) && Holds(s, h1, w1) && Off(s, h1.balances, w1.balances, shift)
    ensures Alike(ObservedCall(s, h, input, callee), PlainObservedCall(s, w1, input, callee),
                  DivideCall(s, h, input, callee).1 == CrossContractControlLeak,
                  UndisturbedCall(s, h, input, callee, shift))
    decreases callee, 1
  {
    CallSeenAlike(s, h, input, callee, h1, w1);
    CalleeAlike(s, h1, w1, input, callee, shift);
    LeakOfCallee(s, h, input, callee);
    var r, r' := DivideCall(s, h, input, callee), PlainCallee(s, w1, input, callee);
    OwnAlike(ObservedCallee(s, h1, input, callee), r.1, r.2, PlainObservedCallee(s, w1, input, callee), r'.1, r'.2,
             UndisturbedCallee(s, h1, input, callee, shift), ShowsPlain(s, h1, input, callee));
  }

  lemma OwnAlike(a: seq<Seen>, result: InstructionResult, data: Bytes,
                 c: seq<Seen>, result': InstructionResult, data': Bytes, first: bool, shows: bool)
    requires Alike(a, c, result == CrossContractControlLeak, first)
    requires EndsAlike(result, data, result', data', shows)
    ensures Alike(a + CallSeen(result, data), c + CallSeen(result', data'), result == CrossContractControlLeak,
                  first && (AfterCall(result, false) == Continue ==> shows))
  {
    var b, d := CallSeen(result, data), CallSeen(result', data');
    if result == CrossContractControlLeak {
      AlikeLeaked(a, c, d, first);
      assert a + b == a;
    } else {
      AlikeThen(a, b, c, d, false, first, AfterCall(result, false) == Continue ==> shows);
    }
  }

  /** Whether the run of the callee's code ended in a leak. */
  predicate CalleeLeaks(s: Setup, h: Host, input: CallInput, callee: Program) {
    && s.chain.code(input.context.codeAddress).Some?
    && RunActions(s, Started(s, h, input), FrameOf(input), callee.actions).1 == CrossContractControlLeak
  }

  lemma LeakOfProgram(s: Setup, h: Host, f: Frame, p: Program)
    ensures RunProgram(s, h, f, p).1 == CrossContractControlLeak
       <==> RunActions(s, h, f, p.actions).1 == CrossContractControlLeak
  {
  }

  lemma LeakWithinDapp(s: Setup, h: Host, input: CallInput, callee: Program)
    requires WithinDapp(s, h, input)
    ensures SameDappCall(s, h, input, callee).1 == CrossContractControlLeak <==> CalleeLeaks(s, h, input, callee)
  {
    LeakOfProgram(s, h, FrameOf(input), callee);
  }

  lemma NoLeakAcross(s: Setup, h: Host, input: CallInput, callee: Program)
    requires !WithinDapp(s, h, input)
    ensures CrossDappCall(s, Crossing(h), input, callee).1 != CrossContractControlLeak
    ensures !CalleeLeaks(s, h, input, callee)
  {
    NoLeakInside(s, Started(s, h, input), input, callee);
    CrossIsNoLeak(s, Crossing(h), input, callee);
  }

  lemma CrossIsNoLeak(s: Setup, h: Host, input: CallInput, callee: Program)
    requires !h.isDiffDapp
    ensures CrossDappCall(s, h, input, callee).1 != CrossContractControlLeak
  {
  }

  /** A call ends in a leak if its callee's code does. */
  lemma LeakOfCallee(s: Setup, h: Host, input: CallInput, callee: Program)
    ensures DivideCall(s, h, input, callee).1 == CrossContractControlLeak
       <==> CalleeLeaks(s, EnterCallee(s, h, input), input, callee)
  {
    var h1 := EnterCallee(s, h, input);
    DivideIs(s, h, input, callee);
    if WithinDapp(s, h1, input) {
      LeakWithinDapp(s, h1, input, callee);
    } else {
      NoLeakAcross(s, h1, input, callee);
    }
  }

  lemma {:induction false} CalleeAlike(s: Setup, h: Host, w: World, input: CallInput, callee: Program, shift: Shift)
    requires Holds(s, h, w) && Off(s, h.balances, w.balances, shift)
    ensures Alike(ObservedCallee(s, h, input, callee), PlainObservedCallee(s, w, input, callee),
                  CalleeLeaks(s, h, input, callee), UndisturbedCallee(s, h, input, callee, shift))
    decreases callee, 0
  {
    if s.chain.code(input.context.codeAddress).Some? {
      ObservationsAlike(s, Started(s, h, input), w, FrameOf(input), callee.actions, shift);
    }
  }

  // ---------------------------------------------------------------- whole transactions

  /** The input of the transaction's own frame. */
  function InputOfTx(tx: TargetTx): CallInput {
    CallInput(tx.to, tx.value, tx.input, U64_MAX, CallContext(tx.to, tx.from, tx.to, tx.value, Evm.Call))
  }

  /**
    A whole transaction that reports no leak shows its contracts what they would
    see without a detector exactly if it is undisturbed; one that reports a leak
    then shows them the beginning of it.
   */
  lemma TransactionSeenAlike(s: Setup, h: Host, tx: TargetTx)
    requires !h.isExecuteVictimFunction && s.chain.code(tx.to).Some?
    ensures var h1 := Fund(s, StartTransaction(h, tx), tx.from, tx.to, tx.value, tx.value);
            var w1 := WorldFund(s, World(map[], h.balances), InputOfTx(tx));
            var f := FrameOf(InputOfTx(tx));
            Alike(Observed(s, h1, f, tx.program.actions), PlainObserved(s, w1, f, tx.program.actions),
                  Execute(s, h, tx).1 == CrossContractControlLeak, Undisturbed(s, h1, f, tx.program.actions, NO_SHIFT))
  {
    var h1 := Fund(s, StartTransaction(h, tx), tx.from, tx.to, tx.value, tx.value);
    var w1 := WorldFund(s, World(map[], h.balances), InputOfTx(tx));
    OffNothing(s, h1.balances);
    ObservationsAlike(s, h1, w1, FrameOf(InputOfTx(tx)), tx.program.actions, NO_SHIFT);
  }

  /** A chain without code, on which all addresses are of one DApp. */
  const ECHO_CHAIN := Chain(_ => None, _ => DappInfo(0, "dapp"), (_, _, _) => 0, (_, _) => 0)
  const ECHO_SETUP := Setup(ECHO_CHAIN, 0, [], [], VictimTx(0, 0, 0, [], [], 0, 0, Program([], Stop, [])), 0)
  const ECHO_CALL := Call(Request(Evm.Call, 100, 0, [1], 0, None), Program([], Stop, []))

  /** A call of an address without code hands its caller the input back, where there should be no data. */
  lemma EchoSeen()
    ensures var f := Frame(200, 300, 200, 0, []);
            && ObservedOne(ECHO_SETUP, New(), f, ECHO_CALL) == [SeenCall(true, true, [1])]
            && PlainObservedOne(ECHO_SETUP, World(map[], map[]), f, ECHO_CALL) == [SeenCall(true, true, [])]
  {
    var f := Frame(200, 300, 200, 0, []);
    var input := InputOf(f, ECHO_CALL.request);
    var h := EnterCallee(ECHO_SETUP, BeforeCall(ECHO_SETUP, New(), f, input).(callDepth := 1), input);
    assert WithinDapp(ECHO_SETUP, h, input);
  }

  /** Ether that a victim moves shows in the balance of the account it goes to. */
  lemma VictimSeen(s: Setup, h: Host, context: CallContext)
    requires h.isDiffDapp && s.victim.to in h.balances
    ensures var h' := Replay(s, h, context).0;
            s.victim.to in h'.balances && (h'.balances[s.victim.to] == h.balances[s.victim.to] <==> s.victim.value == 0)
  {
    ReplayIsTransparent(s, h, context);
  }
}
