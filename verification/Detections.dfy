/**
  What a reported leak means, and what a run of the detector leaves as it was.
 */
module Detections {
  import opened Words
  import opened InstructionResults
  import opened Detector
  import Journal

  // ---------------------------------------------------------------- inside a cross-DApp call

  /**
    Nothing but hits of the victim is noted inside a cross-DApp call, and no flag but `bugHit` and
    `fromArgs` moves.
   */
  ghost predicate Inside(s: Setup, h: Host, h': Host) {
    && h'.noNeedForTest == h.noNeedForTest
    && h'.entryFunction == h.entryFunction
    && h.history <= h'.history
    && (forall i | |h.history| <= i < |h'.history| :: h'.history[i] == Hit(s.origin, s.targetDependency))
    && h'.bugHit == (h.bugHit || |h.history| < |h'.history|)
    && (!h.isExecuteVictimFunction ==> h'.history == h.history)
  }

  lemma InsideTrans(s: Setup, a: Host, b: Host, c: Host)
    requires Inside(s, a, b) && Inside(s, b, c) && b.isExecuteVictimFunction == a.isExecuteVictimFunction
    ensures Inside(s, a, c)
  {
    forall i | |a.history| <= i < |c.history|
      ensures c.history[i] == Hit(s.origin, s.targetDependency)
    {
      if i < |b.history| {
        assert c.history[i] == b.history[i];
      }
    }
  }

  lemma {:induction false} InsideActions(s: Setup, h: Host, f: Frame, actions: seq<Action>)
    requires h.isDiffDapp
    ensures Inside(s, h, RunActions(s, h, f, actions).0)
    decreases actions
  {
    if actions != [] {
      InsideAction(s, h, f, actions[0]);
      var (h1, result) := RunAction(s, h, f, actions[0]);
      if result == Continue {
        InsideActions(s, h1, f, actions[1..]);
        InsideTrans(s, h, h1, RunActions(s, h1, f, actions[1..]).0);
      }
    }
  }

  lemma {:induction false} InsideProgram(s: Setup, h: Host, f: Frame, p: Program)
    requires h.isDiffDapp
    ensures Inside(s, h, RunProgram(s, h, f, p).0)
    decreases p, 0
  {
    InsideActions(s, h, f, p.actions);
  }

  lemma {:induction false} InsideAction(s: Setup, h: Host, f: Frame, action: Action)
    requires h.isDiffDapp
    ensures Inside(s, h, RunAction(s, h, f, action).0)
    decreases action
  {
    if action.Call? {
      InsideCall(s, h, f, action.request, action.callee);
    }
  }

  lemma InsideBefore(s: Setup, h: Host, f: Frame, input: CallInput)
    ensures Inside(s, h, BeforeCall(s, h, f, input))
  {
  }

  /** `h'` seen from another depth. */
  lemma InsideElsewhere(s: Setup, h: Host, h': Host, depth: nat)
    requires Inside(s, h, h')
    ensures Inside(s, h, h'.(callDepth := depth))
  {
  }

  /** A call of an address that is no precompile, until the depth is taken back. */
  lemma {:induction false} InsideContract(s: Setup, h: Host, f: Frame, input: CallInput, callee: Program, h2: Host)
    requires h.isDiffDapp && h2 == Entered(s, h, f, input)
    ensures Inside(s, h, DivideCall(s, h2, input, callee).0)
    decreases callee, 3
  {
    InsideBefore(s, h, f, input);
    InsideElsewhere(s, h, BeforeCall(s, h, f, input), h.callDepth + 1);
    InsideDivide(s, h2, input, callee);
    InsideTrans(s, h, h2, DivideCall(s, h2, input, callee).0);
  }

  lemma {:induction false} InsideCall(s: Setup, h: Host, f: Frame, request: Request, callee: Program)
    requires h.isDiffDapp
    ensures Inside(s, h, RunCall(s, h, f, request, callee).0)
    decreases callee, 4
  {
    if !Journal.IsPrecompile(request.to, s.numOfPrecompiles) {
      var input := InputOf(f, request);
      var h2 := Entered(s, h, f, input);
      InsideContract(s, h, f, input, callee, h2);
      InsideElsewhere(s, h, DivideCall(s, h2, input, callee).0, h.callDepth);
    }
  }

  lemma {:induction false} InsideDivide(s: Setup, h: Host, input: CallInput, callee: Program)
    requires h.isDiffDapp
    ensures Inside(s, h, DivideCall(s, h, input, callee).0)
    decreases callee, 2
  {
    var h1 := EnterCallee(s, h, input);
    InsideSameDapp(s, h1, input, callee);
    InsideTrans(s, h, h1, SameDappCall(s, h1, input, callee).0);
  }

  lemma {:induction false} InsideSameDapp(s: Setup, h: Host, input: CallInput, callee: Program)
    requires h.isDiffDapp
    ensures Inside(s, h, SameDappCall(s, h, input, callee).0)
    decreases callee, 1
  {
    if s.chain.code(input.context.codeAddress).Some? {
      InsideProgram(s, h, FrameOf(input), callee);
    }
  }

  // ---------------------------------------------------------------- the meaning of a leak

  /** A cross-DApp call from arguments, its good end, and a replay that called the target, at `i` of the history. */
  predicate WitnessAt(s: Setup, history: seq<Event>, i: nat) {
    && i + 3 < |history|
    && history[i].CrossStart? && history[i].fromArgs && history[i].gasLimit != 2300
    && history[i + 1] in {CalleeEnd(Stop), CalleeEnd(Return), CalleeEnd(SelfDestruct)}
    && history[i + 2] == ReplayStart
    && history[i + 3] == Hit(s.origin, s.targetDependency)
    && exists j | 0 <= j < |history| :: EndsReplay(history, i, j)
  }

  /** From the first hit, three events after `i`, all are hits of the replay that ends at `j`. */
  predicate EndsReplay(history: seq<Event>, i: nat, j: nat)
    requires j < |history|
  {
    i + 3 < j && history[j] == ReplayEnd && forall k | i + 3 <= k < j :: history[k].Hit?
  }

  predicate Witnessed(s: Setup, history: seq<Event>) {
    exists i | 0 <= i < |history| :: WitnessAt(s, history, i)
  }

  predicate HasHit(history: seq<Event>) {
    exists i | 0 <= i < |history| :: history[i].Hit?
  }

  predicate HasLeak(history: seq<Event>) {
    exists i | 0 <= i < |history| :: history[i].LeakStore?
  }

  /** After the first hit nothing starts any more. */
  predicate NothingAfterHit(history: seq<Event>) {
    forall i, j | 0 <= i < j < |history| && history[i].Hit? :: !history[j].ReplayStart? && !history[j].CrossStart?
  }

  /** A cross-DApp call from arguments and its good end, at `i` and after it. */
  predicate DueAt(history: seq<Event>, i: nat) {
    && i + 1 < |history|
    && history[i].CrossStart? && history[i].fromArgs && history[i].gasLimit != 2300
    && history[i + 1] in {CalleeEnd(Stop), CalleeEnd(Return), CalleeEnd(SelfDestruct)}
  }

  predicate StartsReplay(history: seq<Event>, k: nat) {
    k < |history| && history[k] == ReplayStart
  }

  /** Replays start right after such calls, after every one of them, and nowhere else. */
  ghost predicate ReplaysWhenDue(history: seq<Event>) {
    && !StartsReplay(history, 0) && !StartsReplay(history, 1)
    && forall i: nat :: DueAt(history, i) <==> StartsReplay(history, i + 2)
  }

  lemma DueAppended(history: seq<Event>, tail: seq<Event>)
    requires ReplaysWhenDue(history) && ReplaysWhenDue(tail)
    requires tail != [] && !tail[0].CalleeEnd?
    ensures ReplaysWhenDue(history + tail)
  {
    var all, n := history + tail, |history|;
    assert forall k | 0 <= k < n :: all[k] == history[k];
    assert forall k | n <= k < |all| :: all[k] == tail[k - n];
    forall i: nat
      ensures DueAt(all, i) <==> StartsReplay(all, i + 2)
    {
      if i + 2 <= n {
        assert DueAt(history, i) <==> StartsReplay(history, i + 2);
        assert DueAt(all, i) <==> DueAt(history, i);
        assert i + 2 == n ==> !StartsReplay(tail, 0);
      } else if i + 1 == n {
        assert !StartsReplay(tail, 1);
      } else {
        assert DueAt(tail, i - n) <==> StartsReplay(tail, i - n + 2);
        assert DueAt(all, i) <==> DueAt(tail, i - n);
      }
    }
    assert n == 0 ==> all == tail;
    assert n == 1 ==> !StartsReplay(tail, 0);
  }

  /** The events of a cross-DApp call: its start, its end, and a replay if and only if one is due. */
  lemma CrossIsDue(start: Event, end: Event, hits: seq<Event>, replayed: bool)
    requires start.CrossStart? && end.CalleeEnd? && forall e | e in hits :: e.Hit?
    requires replayed <==> start.fromArgs && start.gasLimit != 2300
                           && end in {CalleeEnd(Stop), CalleeEnd(Return), CalleeEnd(SelfDestruct)}
    ensures ReplaysWhenDue([start, end] + if replayed then [ReplayStart] + hits + [ReplayEnd] else [])
  {
    var all := [start, end] + if replayed then [ReplayStart] + hits + [ReplayEnd] else [];
    assert all[0] == start && all[1] == end;
    assert forall k | 3 <= k < |all| - 1 :: all[k] == hits[k - 3] && hits[k - 3] in hits;
    assert forall k | 3 <= k < |all| :: all[k] == ReplayEnd || all[k].Hit?;
    assert DueAt(all, 0) <==> replayed;
  }

  /** The host between cross-DApp calls, no leak reported yet. */
  ghost predicate Clean(s: Setup, h: Host) {
    && !h.isDiffDapp && !h.isExecuteVictimFunction && h.noNeedForTest
    && (h.bugHit <==> HasHit(h.history))
    && (h.bugHit ==> Witnessed(s, h.history))
    && NothingAfterHit(h.history)
    && ReplaysWhenDue(h.history)
    && !HasLeak(h.history)
  }

  /** The host once a leak was reported: the store that showed it ends the history. */
  ghost predicate Leaked(s: Setup, h: Host) {
    var n := |h.history| - 1;
    && n >= 0 && h.history[n].LeakStore?
    && Witnessed(s, h.history[..n])
    && NothingAfterHit(h.history)
    && ReplaysWhenDue(h.history)
    && !h.isDiffDapp && !h.isExecuteVictimFunction && h.noNeedForTest
  }

  ghost predicate Reported(s: Setup, h: Host, result: InstructionResult) {
    if result == CrossContractControlLeak then Leaked(s, h) else Clean(s, h)
  }

  lemma LeakingStore(s: Setup, h: Host, e: Event)
    requires Clean(s, h) && h.bugHit && e.LeakStore?
    ensures Leaked(s, h.(history := h.history + [e]))
  {
    assert (h.history + [e])[..|h.history|] == h.history;
    DueAppended(h.history, [e]);
  }

  /** The history of a callee that ran in a cross-DApp call. */
  lemma CalleeHistory(s: Setup, h: Host, input: CallInput, callee: Program)
    requires !h.isDiffDapp && !h.isExecuteVictimFunction
    ensures var (h1, result, _) := RunCallee(s, h, input, callee);
            && h1.history == h.history + [CrossStart(h.fromArgs, input.gasLimit), CalleeEnd(result)]
            && h1.noNeedForTest == h.noNeedForTest && h1.bugHit == h.bugHit
  {
    var h1 := EnterDiff(h, input);
    InsideProgram(s, h1, FrameOf(input), CodeAt(s, input.context.codeAddress, callee));
  }

  /** The history of a replay: its start, hits, its end. */
  lemma ReplayHistory(s: Setup, h: Host, context: CallContext) returns (hits: seq<Event>)
    requires h.isDiffDapp && !h.bugHit
    ensures var h' := Replay(s, h, context).0;
            && h'.history == h.history + [ReplayStart] + hits + [ReplayEnd]
            && (forall e | e in hits :: e == Hit(s.origin, s.targetDependency))
            && h'.bugHit == (hits != [])
            && h'.noNeedForTest && !h'.isExecuteVictimFunction
  {
    var h1 := Fund(s, h.(isExecuteVictimFunction := true), s.victim.from, s.victim.to, s.victim.value, s.victim.value);
    var h2 := EnterReplay(s, h1, context);
    hits := [];
    if s.victim.input != [] {
      InsideProgram(s, h2, VictimFrame(s), CodeAt(s, s.victim.to, s.victim.program));
      var h3 := RunProgram(s, h2, VictimFrame(s), CodeAt(s, s.victim.to, s.victim.program)).0;
      hits := h3.history[|h2.history|..];
      assert h3.history == h2.history + hits;
    }
  }

  lemma ReplayIsDue(history: seq<Event>, start: Event, end: Event, hits: seq<Event>, history': seq<Event>)
    requires ReplaysWhenDue(history)
    requires start.CrossStart? && start.fromArgs && start.gasLimit != 2300
    requires end in {CalleeEnd(Stop), CalleeEnd(Return), CalleeEnd(SelfDestruct)}
    requires forall e | e in hits :: e.Hit?
    requires history' == history + [start, end] + [ReplayStart] + hits + [ReplayEnd]
    ensures ReplaysWhenDue(history')
  {
    var tail := [ReplayStart] + hits + [ReplayEnd];
    CrossIsDue(start, end, hits, true);
    DueAppended(history, [start, end] + tail);
    assert history' == history + ([start, end] + tail);
  }

  lemma CleanReplay(s: Setup, h: Host, start: Event, end: Event, hits: seq<Event>, h': Host)
    requires Clean(s, h) && !h.bugHit
    requires start.CrossStart? && start.fromArgs && start.gasLimit != 2300
    requires end in {CalleeEnd(Stop), CalleeEnd(Return), CalleeEnd(SelfDestruct)}
    requires forall e | e in hits :: e == Hit(s.origin, s.targetDependency)
    requires h'.history == h.history + [start, end] + [ReplayStart] + hits + [ReplayEnd]
    requires h'.bugHit == (hits != [])
    requires !h'.isDiffDapp && !h'.isExecuteVictimFunction && h'.noNeedForTest
    ensures Clean(s, h')
  {
    var n := |h.history|;
    ReplayIsDue(h.history, start, end, hits, h'.history);
    var head := h.history + [start, end] + [ReplayStart];
    assert forall i | 0 <= i < |head| :: h'.history[i] == head[i] && !head[i].Hit? && !head[i].LeakStore?;
    assert forall i | |head| <= i < |head| + |hits| :: h'.history[i] == hits[i - |head|] && hits[i - |head|] in hits;
    assert h'.history[|head| + |hits|] == ReplayEnd;
    if hits != [] {
      assert h'.history[n + 3] == hits[0];
      assert EndsReplay(h'.history, n, |head| + |hits|);
      assert WitnessAt(s, h'.history, n);
      assert h'.history[|head|].Hit?;
    }
  }

  lemma CleanNoReplay(s: Setup, h: Host, start: Event, end: Event, h': Host)
    requires Clean(s, h) && !h.bugHit && start.CrossStart? && end.CalleeEnd?
    requires start.fromArgs && start.gasLimit != 2300
             ==> end !in {CalleeEnd(Stop), CalleeEnd(Return), CalleeEnd(SelfDestruct)}
    requires h'.history == h.history + [start, end] && !h'.bugHit
    requires !h'.isDiffDapp && !h'.isExecuteVictimFunction && h'.noNeedForTest
    ensures Clean(s, h')
  {
    CrossIsDue(start, end, [], false);
    assert [start, end] + [] == [start, end];
    DueAppended(h.history, [start, end]);
    assert forall e | e in [start, end] :: !e.Hit? && !e.LeakStore?;
  }

  lemma CleanCross(s: Setup, h: Host, input: CallInput, callee: Program)
    requires Clean(s, h.(noNeedForTest := true)) && h.noNeedForTest == !h.fromArgs && !h.bugHit
    ensures var (h', result, _) := CrossDappCall(s, h, input, callee);
            Clean(s, h') && result != CrossContractControlLeak
  {
    CalleeHistory(s, h, input, callee);
    var ran := RunCallee(s, h, input, callee);
    var start, end := CrossStart(h.fromArgs, input.gasLimit), CalleeEnd(ran.1);
    if Replays(ran.0, ran.1, input.gasLimit) {
      var hits := ReplayHistory(s, ran.0, input.context);
      ReplayedIs(s, ran, input);
      CleanReplay(s, h.(noNeedForTest := true), start, end, hits, AfterCallee(s, ran, input).0);
    } else {
      CleanNoReplay(s, h.(noNeedForTest := true), start, end, AfterCallee(s, ran, input).0);
    }
  }

  lemma ReplayedIs(s: Setup, ran: (Host, InstructionResult, Bytes), input: CallInput)
    requires ran.0.isDiffDapp && ran.1 != CrossContractControlLeak && Replays(ran.0, ran.1, input.gasLimit)
    ensures AfterCallee(s, ran, input).0 == Replay(s, ran.0, input.context).0.(isDiffDapp := false)
  {
  }

  lemma {:induction false} CleanActions(s: Setup, h: Host, f: Frame, actions: seq<Action>)
    requires Clean(s, h)
    ensures var (h', result) := RunActions(s, h, f, actions); Reported(s, h', result)
    decreases actions
  {
    if actions != [] {
      CleanAction(s, h, f, actions[0]);
      var (h1, result) := RunAction(s, h, f, actions[0]);
      if result == Continue {
        CleanActions(s, h1, f, actions[1..]);
      }
    }
  }

  lemma {:induction false} CleanProgram(s: Setup, h: Host, f: Frame, p: Program)
    requires Clean(s, h)
    ensures var (h', result, _) := RunProgram(s, h, f, p); Reported(s, h', result)
    decreases p, 0
  {
    CleanActions(s, h, f, p.actions);
  }

  lemma {:induction false} CleanAction(s: Setup, h: Host, f: Frame, action: Action)
    requires Clean(s, h)
    ensures var (h', result) := RunAction(s, h, f, action); Reported(s, h', result)
    decreases action
  {
    match action
    case Sstore(key, value) =>
      if h.bugHit {
        LeakingStore(s, h, LeakStore(f.address, key));
      }
    case Call(request, callee) => CleanCall(s, h, f, request, callee);
    case _ =>
  }

  /** `h` seen from another frame. */
  lemma CleanElsewhere(s: Setup, h: Host, h': Host)
    requires Clean(s, h) && h' == h.(fromArgs := h'.fromArgs, callDepth := h'.callDepth)
    ensures Clean(s, h')
  {
  }

  lemma ReportedOnReturn(s: Setup, h: Host, reason: InstructionResult, h': Host)
    requires Reported(s, h, reason) && h' == h.(callDepth := h'.callDepth)
    ensures Reported(s, h', AfterCall(reason, false))
  {
  }

  lemma CleanBefore(s: Setup, h: Host, f: Frame, input: CallInput, h2: Host)
    requires Clean(s, h) && h2 == Entered(s, h, f, input)
    ensures Clean(s, h2)
  {
    CleanElsewhere(s, h, h2);
  }

  lemma {:induction false} CleanCall(s: Setup, h: Host, f: Frame, request: Request, callee: Program)
    requires Clean(s, h)
    ensures var (h', result) := RunCall(s, h, f, request, callee); Reported(s, h', result)
    decreases callee, 4
  {
    if Journal.IsPrecompile(request.to, s.numOfPrecompiles) {
      ReportedOnReturn(s, h, CallPrecompile(request).0, h);
    } else {
      var input := InputOf(f, request);
      var h2 := Entered(s, h, f, input);
      CleanBefore(s, h, f, input, h2);
      CleanDivide(s, h2, input, callee);
      var ran := DivideCall(s, h2, input, callee);
      HostCallIs(s, h, f, request, callee, h2, ran.0, ran.1);
      ReportedOnReturn(s, ran.0, ran.1, ran.0.(callDepth := h.callDepth));
    }
  }

  lemma {:induction false} CleanDivide(s: Setup, h: Host, input: CallInput, callee: Program)
    requires Clean(s, h)
    ensures var (h', result, _) := DivideCall(s, h, input, callee); Reported(s, h', result)
    decreases callee, 3
  {
    CleanEntered(s, h, input);
    CleanContract(s, EnterCallee(s, h, input), input, callee);
    var called := ContractCall(s, EnterCallee(s, h, input), input, callee);
    ReportedInContext(s, called.0, called.1, called.0.(context := h.context));
  }

  lemma CleanEntered(s: Setup, h: Host, input: CallInput)
    requires Clean(s, h)
    ensures Clean(s, EnterCallee(s, h, input))
  {
  }

  lemma ReportedInContext(s: Setup, h: Host, result: InstructionResult, h': Host)
    requires Reported(s, h, result) && h' == h.(context := h'.context)
    ensures Reported(s, h', result)
  {
  }

  lemma {:induction false} CleanContract(s: Setup, h: Host, input: CallInput, callee: Program)
    requires Clean(s, h)
    ensures var (h', result, _) := ContractCall(s, h, input, callee); Reported(s, h', result)
    decreases callee, 2
  {
    if WithinDapp(s, h, input) {
      CleanSameDapp(s, h, input, callee);
    } else {
      assert Crossing(h).(noNeedForTest := true) == h;
      CleanCross(s, Crossing(h), input, callee);
    }
  }

  lemma {:induction false} CleanSameDapp(s: Setup, h: Host, input: CallInput, callee: Program)
    requires Clean(s, h)
    ensures var (h', result, _) := SameDappCall(s, h, input, callee); Reported(s, h', result)
    decreases callee, 1
  {
    if s.chain.code(input.context.codeAddress).Some? {
      CleanProgram(s, h, FrameOf(input), callee);
    }
  }

  /**
    Every reported leak has a witness: the history ends with a store outside any
    cross-DApp call, before which a cross-DApp call from arguments with a gas limit other than
    2300 ended well and its replay called the target function of the origin; and
    after the first hit no cross-DApp call and no replay starts. Whether or not a
    leak is reported, a replay follows every cross-DApp call that calls for one.
   */
  lemma ReportedLeakHasWitness(s: Setup, h: Host, tx: TargetTx)
    requires !h.isDiffDapp && !h.isExecuteVictimFunction && h.noNeedForTest && h.history == []
    ensures var (h', result, _) := Execute(s, h, tx);
            && (result == CrossContractControlLeak <==> HasLeak(h'.history))
            && (result == CrossContractControlLeak ==> Leaked(s, h'))
            && NothingAfterHit(h'.history)
            && ReplaysWhenDue(h'.history)
            && !h'.isDiffDapp && !h'.isExecuteVictimFunction && h'.noNeedForTest && h'.callDepth == h.callDepth
  {
    var h1 := StartTransaction(h, tx);
    if s.chain.code(tx.to).Some? {
      var h2 := Fund(s, h1, tx.from, tx.to, tx.value, tx.value);
      assert Clean(s, h2);
      CleanProgram(s, h2, Frame(tx.to, tx.from, tx.to, tx.value, tx.input), tx.program);
    }
  }
}
