/**
  What becomes of one account's code hash, slots and Created flag over whole
  runs and through reverts, none of which the journal keeps in full. A deed is
  what the journal does not take back: an account marked created, or code
  deployed. An account that is taken, the guard of the collision test, keeps
  hash and slots through every reverted frame; any other keeps its hash if no
  code with another hash was deployed to it, from Spurious Dragon on exactly
  then, and its flag exactly if it was not marked.
 */
module Creations {
  import opened Words
  import opened Accounts
  import opened InstructionResults
  import opened Journal
  import opened Rollback
  import opened Tracking
  import opened Frames
  import opened Evm
  import opened EvmRuns
  import opened Limits

  // ---------------------------------------------------------------- deeds of a run

  /** `Zeroed` goes with `Marked`: the slots of `a` were zeroed in the state `at`. */
  datatype Deed = Marked(a: Address) | Zeroed(a: Address, at: ValidJState) | Deployed(a: Address, hash: B256)

  /** What a creation of `a` does to it before anything is journaled. */
  function Marks(js: ValidJState, a: Address): seq<Deed> {
    [Marked(a), Zeroed(a, js)]
  }

  function Deeds(cfg: Config, db: Database, js: ValidJState, self: Address, body: seq<HostOp>): seq<Deed>
    decreases body
  {
    if body == [] then []
    else
      var r := RunOp(cfg, db, js, self, body[0]);
      OpDeeds(cfg, db, js, self, body[0]) + if r.Some? then Deeds(cfg, db, r.value, self, body[1..]) else []
  }

  function OpDeeds(cfg: Config, db: Database, js: ValidJState, self: Address, op: HostOp): seq<Deed>
    decreases op
  {
    if op.OpCall? then
      var inputs := CallInputsOf(self, op.scheme, op.to, op.value, op.gasLimit);
      var loaded := LoadAccountExist(js, db, inputs.contract);
      if loaded.1.DbErr? then [] else CallDeeds(cfg, db, loaded.0, inputs, op.callee)
    else if op.OpCreate? then
      CreateDeeds(cfg, db, js, CreateInputs(self, op.created, op.value, op.gasLimit), op.callee)
    else []
  }

  function CallDeeds(cfg: Config, db: Database, js: ValidJState, inputs: CallInputs, callee: Callee): seq<Deed>
    decreases callee, 2
  {
    var loaded := LoadCode(js, db, inputs.contract);
    if loaded.1.DbErr? || loaded.0.depth > CALL_STACK_LIMIT then []
    else CallFrameDeeds(cfg, db, EnterCall(db, Checkpoint(loaded.0).1, inputs), inputs, callee)
  }

  function CallFrameDeeds(cfg: Config, db: Database, entered: (ValidJState, Option<InstructionResult>),
                          inputs: CallInputs, callee: Callee)
    : seq<Deed>
    decreases callee, 1
  {
    if entered.1.Some? || IsPrecompile(inputs.contract, entered.0.numOfPrecompiles) || !callee.hasCode then []
    else Deeds(cfg, db, entered.0, inputs.contextAddress, callee.body)
  }

  function CreateDeeds(cfg: Config, db: Database, js: ValidJState, inputs: CreateInputs, callee: Callee): seq<Deed>
    decreases callee, 2
  {
    var prepared := PrepareCreate(db, js, inputs);
    if prepared.1.Some? then [] else CreateFrameDeeds(cfg, db, Checkpoint(prepared.0).1, inputs, callee)
  }

  function CreateFrameDeeds(cfg: Config, db: Database, js: ValidJState, inputs: CreateInputs, callee: Callee): seq<Deed>
    requires inputs.caller in js.state && inputs.created in js.state
    decreases callee, 1
  {
    var made := CreateAccount(js, cfg.Enabled(SPURIOUS_DRAGON), inputs.caller, inputs.created, inputs.value);
    if AccountCollision(inputs.created, js.state[inputs.created], js.numOfPrecompiles) then []
    else Marks(js, inputs.created) + if made.1.Some? then [] else InitDeeds(cfg, db, made.0, inputs, callee)
  }

  /** The deeds of the init code, and the deployment if it goes through. */
  function InitDeeds(cfg: Config, db: Database, js: ValidJState, inputs: CreateInputs, callee: Callee): seq<Deed>
    decreases callee, 0
  {
    Deeds(cfg, db, js, inputs.created, callee.body) + FinalDeeds(cfg, inputs.created, callee)
  }

  function FinalDeeds(cfg: Config, created: Address, callee: Callee): seq<Deed> {
    var verdict := Evm.Deployment(cfg, callee);
    if callee.exit.IsOk() && verdict.0.IsOk() then [Deployed(created, DeployedHash(verdict.2, callee))] else []
  }

  function DeployedHash(output: Bytes, callee: Callee): B256 {
    if output == [] then KECCAK_EMPTY else callee.outputHash
  }

  /** Every code deployed to `a` is the empty one. */
  predicate OnlyEmpty(deeds: seq<Deed>, a: Address) {
    forall d | d in deeds && d.Deployed? && d.a == a :: d.hash == KECCAK_EMPTY
  }

  predicate NoneDeployed(deeds: seq<Deed>, a: Address) {
    forall d | d in deeds :: !(d.Deployed? && d.a == a)
  }

  /** The collision test refuses the account, whatever its address. */
  predicate Taken(acc: Account) {
    acc.info.codeHash != KECCAK_EMPTY || acc.info.nonce != 0
  }

  // ---------------------------------------------------------------- what undoing leaves of a slot

  /** The present value that slot `k` of `a` is left with when `es` are undone. */
  function PresentAfterUndo(es: Entries, a: Address, k: U256, present: U256): U256 {
    if es == [] then present
    else if es[0].StorageChange? && es[0].address == a && es[0].key == k && es[0].hadValue.Some?
      then es[0].hadValue.value
    else PresentAfterUndo(es[1..], a, k, present)
  }

  lemma {:induction false} PresentConcat(es: Entries, fs: Entries, a: Address, k: U256, present: U256)
    ensures PresentAfterUndo(es + fs, a, k, present) == PresentAfterUndo(es, a, k, PresentAfterUndo(fs, a, k, present))
  {
    if es == [] {
      assert es + fs == fs;
    } else {
      assert (es + fs)[1..] == es[1..] + fs;
      PresentConcat(es[1..], fs, a, k, present);
    }
  }

  /** Undoing sets a slot to a value of its own, or leaves it alone. */
  lemma {:induction false} PresentSetOrKept(es: Entries, a: Address, k: U256, x: U256, y: U256)
    ensures PresentAfterUndo(es, a, k, x) == PresentAfterUndo(es, a, k, y)
         || (PresentAfterUndo(es, a, k, x) == x && PresentAfterUndo(es, a, k, y) == y)
  {
    if es != [] {
      PresentSetOrKept(es[1..], a, k, x, y);
    }
  }

  /** One of the entries tells what slot `k` of `a` held. */
  ghost predicate WrittenIn(es: Entries, a: Address, k: U256) {
    exists e | e in es :: e.StorageChange? && e.address == a && e.key == k && e.hadValue.Some?
  }

  /** What is undone of a slot is what the first such entry says, or nothing. */
  lemma {:induction false} PresentIfWritten(es: Entries, a: Address, k: U256, x: U256, y: U256)
    ensures WrittenIn(es, a, k) ==> PresentAfterUndo(es, a, k, x) == PresentAfterUndo(es, a, k, y)
    ensures !WrittenIn(es, a, k) ==> PresentAfterUndo(es, a, k, x) == x
  {
    if es != [] {
      assert es[0] in es && forall e | e in es[1..] :: e in es;
      PresentIfWritten(es[1..], a, k, x, y);
    }
  }

  lemma PresentOfOne(e: JournalEntry, a: Address, k: U256, present: U256)
    ensures PresentAfterUndo([e], a, k, present)
         == if e.StorageChange? && e.address == a && e.key == k && e.hadValue.Some? then e.hadValue.value else present
  {
    assert [e][1..] == [];
  }

  lemma UndoOneSlot(e: JournalEntry, s: State, a: Address, k: U256, isSpuriousDragon: bool)
    requires Undo(e, s, isSpuriousDragon).Some?
    requires a in Undo(e, s, isSpuriousDragon).value && k in Undo(e, s, isSpuriousDragon).value[a].storage
    ensures a in s && k in s[a].storage
    ensures var after := Undo(e, s, isSpuriousDragon).value[a].storage[k];
            after.original == s[a].storage[k].original
              && after.present == PresentAfterUndo([e], a, k, s[a].storage[k].present)
  {
    PresentOfOne(e, a, k, if a in s && k in s[a].storage then s[a].storage[k].present else 0);
  }

  /** Undoing leaves a slot that stays its original value and the present value its first change found. */
  lemma {:induction false} UndoLeavesFirstValue(es: Entries, s: State, a: Address, k: U256, isSpuriousDragon: bool)
    requires UndoAll(es, s, isSpuriousDragon).Some?
    requires a in UndoAll(es, s, isSpuriousDragon).value && k in UndoAll(es, s, isSpuriousDragon).value[a].storage
    ensures a in s && k in s[a].storage
    ensures var after := UndoAll(es, s, isSpuriousDragon).value[a].storage[k];
            after.original == s[a].storage[k].original
              && after.present == PresentAfterUndo(es, a, k, s[a].storage[k].present)
    decreases |es|
  {
    if es != [] {
      var n := |es| - 1;
      assert es == es[..n] + [es[n]];
      UndoLeavesFirstValue(es[..n], Undo(es[n], s, isSpuriousDragon).value, a, k, isSpuriousDragon);
      UndoOneSlot(es[n], s, a, k, isSpuriousDragon);
      PresentConcat(es[..n], [es[n]], a, k, s[a].storage[k].present);
    }
  }

  lemma {:induction false} UndoKeepsMark(es: Entries, s: State, a: Address, isSpuriousDragon: bool)
    requires UndoAll(es, s, isSpuriousDragon).Some? && a in UndoAll(es, s, isSpuriousDragon).value
    ensures a in s && UndoAll(es, s, isSpuriousDragon).value[a].created == s[a].created
    decreases |es|
  {
    if es != [] {
      var n := |es| - 1;
      UndoKeepsMark(es[..n], Undo(es[n], s, isSpuriousDragon).value, a, isSpuriousDragon);
      UndoOneMark(es[n], s, a, isSpuriousDragon);
    }
  }

  lemma UndoOneMark(e: JournalEntry, s: State, a: Address, isSpuriousDragon: bool)
    requires Undo(e, s, isSpuriousDragon).Some? && a in Undo(e, s, isSpuriousDragon).value
    ensures a in s && Undo(e, s, isSpuriousDragon).value[a].created == s[a].created
  {
  }

  // ---------------------------------------------------------------- hashes

  lemma {:induction false} HashConcat(es: Entries, fs: Entries, a: Address, hash: B256)
    ensures HashAfterUndo(es + fs, a, hash) == HashAfterUndo(es, a, HashAfterUndo(fs, a, hash))
  {
    if es == [] {
      assert es + fs == fs;
    } else {
      assert (es + fs)[1..] == es[1..] + fs;
      HashConcat(es[1..], fs, a, hash);
    }
  }

  predicate NoCodeOf(es: Entries, a: Address) {
    forall e | e in es :: !ChangesCode(e, a)
  }

  predicate EmptyCodeOf(es: Entries, a: Address) {
    forall e | e in es && ChangesCode(e, a) :: e.hadCode.hash == KECCAK_EMPTY
  }

  lemma {:induction false} HashUnchanged(es: Entries, a: Address, hash: B256)
    requires NoCodeOf(es, a)
    ensures HashAfterUndo(es, a, hash) == hash
  {
    if es != [] {
      assert es[0] in es && forall e | e in es[1..] :: e in es;
      HashUnchanged(es[1..], a, hash);
    }
  }

  lemma {:induction false} HashStaysEmpty(es: Entries, a: Address)
    requires EmptyCodeOf(es, a)
    ensures HashAfterUndo(es, a, KECCAK_EMPTY) == KECCAK_EMPTY
  {
    if es != [] {
      assert es[0] in es && forall e | e in es[1..] :: e in es;
      HashStaysEmpty(es[1..], a);
    }
  }

  // ---------------------------------------------------------------- the story of an account

  /** The slot `k` of `a` can be undone, but for zeroes that a creation left. */
  ghost predicate SlotStory(js: ValidJState, js': ValidJState, a: Address, k: U256, marked: bool)
    requires a in js.state && a in js'.state && Continues(js, js')
  {
    k in js.state[a].storage ==>
      && k in js'.state[a].storage
      && var before, after := js.state[a].storage[k], js'.state[a].storage[k];
         var undone := PresentAfterUndo(NewEntries(js, js'), a, k, after.present);
         && after.original == (if marked then 0 else before.original)
         && (undone == before.present || (marked && undone == 0))
  }

  /** The code hash of `a` changes only by deployments, and only where it was not taken. */
  ghost predicate HashStory(js: ValidJState, js': ValidJState, a: Address, deeds: seq<Deed>, isSpuriousDragon: bool)
    requires a in js.state && a in js'.state && Continues(js, js')
  {
    var es := NewEntries(js, js');
    var before, after := js.state[a].info, js'.state[a].info;
    && (before.nonce != 0 ==> after.nonce != 0)
    && (Taken(js.state[a]) ==> Marked(a) !in deeds && NoneDeployed(deeds, a) && NoCodeOf(es, a))
    && (OnlyEmpty(deeds, a) ==> after.codeHash == before.codeHash && EmptyCodeOf(es, a))
    && (isSpuriousDragon && !OnlyEmpty(deeds, a) ==>
          after.codeHash != KECCAK_EMPTY && HashAfterUndo(es, a, after.codeHash) != KECCAK_EMPTY)
    && (isSpuriousDragon && OnlyEmpty(deeds, a) && !NoCodeOf(es, a) ==> after.nonce != 0)
  }

  /** The slots were zeroed in the state `d.at`, with slot `k` not yet written since `js`. */
  ghost predicate Loses(d: Deed, js: ValidJState, a: Address, k: U256) {
    d.Zeroed? && d.a == a && Continues(js, d.at) && !WrittenIn(NewEntries(js, d.at), a, k)
  }

  /** The slot was zeroed while nothing in the journal since `js` told what it held. */
  ghost predicate Lost(deeds: seq<Deed>, js: ValidJState, a: Address, k: U256) {
    exists d | d in deeds :: Loses(d, js, a, k)
  }

  ghost predicate LaterThan(deeds: seq<Deed>, js: ValidJState) {
    forall d | d in deeds && d.Zeroed? :: Continues(js, d.at)
  }

  /** Undoing gives the slot its old value, exactly unless it was zeroed before it was written. */
  ghost predicate PinStory(js: ValidJState, js': ValidJState, a: Address, k: U256, deeds: seq<Deed>)
    requires a in js.state && a in js'.state && Continues(js, js')
  {
    && LaterThan(deeds, js)
    && (k in js.state[a].storage ==>
          && k in js'.state[a].storage
          && PresentAfterUndo(NewEntries(js, js'), a, k, js'.state[a].storage[k].present)
             == if Lost(deeds, js, a, k) then 0 else js.state[a].storage[k].present)
  }

  lemma LaterMark(x: ValidJState, y: ValidJState, d: Deed, a: Address, k: U256)
    requires d.Zeroed? && Continues(x, y) && Continues(y, d.at)
    ensures Continues(x, d.at)
    ensures Loses(d, x, a, k) <==> Loses(d, y, a, k) && !WrittenIn(NewEntries(x, y), a, k)
  {
    ContinuesTrans(x, y, d.at);
    var es, fs := NewEntries(x, y), NewEntries(y, d.at);
    assert forall e | e in es :: e in es + fs;
    assert forall e | e in fs :: e in es + fs;
  }

  /** Deeds seen from an earlier state. */
  lemma LaterMarks(x: ValidJState, y: ValidJState, deeds: seq<Deed>, a: Address, k: U256)
    requires Continues(x, y) && LaterThan(deeds, y)
    ensures LaterThan(deeds, x)
    ensures Lost(deeds, x, a, k) <==> Lost(deeds, y, a, k) && !WrittenIn(NewEntries(x, y), a, k)
  {
    forall d | d in deeds && d.Zeroed?
      ensures Continues(x, d.at)
      ensures Loses(d, x, a, k) <==> Loses(d, y, a, k) && !WrittenIn(NewEntries(x, y), a, k)
    {
      LaterMark(x, y, d, a, k);
    }
  }

  lemma LostConcat(deeds: seq<Deed>, more: seq<Deed>, js: ValidJState, a: Address, k: U256)
    ensures Lost(deeds + more, js, a, k) <==> Lost(deeds, js, a, k) || Lost(more, js, a, k)
  {
    assert forall d | d in deeds :: d in deeds + more;
    assert forall d | d in more :: d in deeds + more;
  }

  lemma PinTrans(a: Address, k: U256, x: ValidJState, y: ValidJState, z: ValidJState, deeds: seq<Deed>, more: seq<Deed>)
    requires a in x.state && a in y.state && a in z.state && Continues(x, y) && Continues(y, z)
    requires PinStory(x, y, a, k, deeds) && PinStory(y, z, a, k, more)
    ensures Continues(x, z) && PinStory(x, z, a, k, deeds + more)
  {
    ContinuesTrans(x, y, z);
    LaterMarks(x, y, more, a, k);
    LostConcat(deeds, more, x, a, k);
    if k in x.state[a].storage {
      var es, fs := NewEntries(x, y), NewEntries(y, z);
      var present := z.state[a].storage[k].present;
      PresentConcat(es, fs, a, k, present);
      PresentIfWritten(es, a, k, PresentAfterUndo(fs, a, k, present), y.state[a].storage[k].present);
      PresentIfWritten(es, a, k, y.state[a].storage[k].present, 0);
    }
  }

  ghost predicate Story(js: ValidJState, js': ValidJState, a: Address, k: U256, deeds: seq<Deed>,
                        isSpuriousDragon: bool) {
    && Continues(js, js')
    && a in js.state && a in js'.state
    && (js'.state[a].created <==> js.state[a].created || Marked(a) in deeds)
    && SlotStory(js, js', a, k, Marked(a) in deeds)
    && PinStory(js, js', a, k, deeds)
    && HashStory(js, js', a, deeds, isSpuriousDragon)
  }

  lemma SlotTrans(a: Address, k: U256, x: ValidJState, y: ValidJState, z: ValidJState, marked: bool, more: bool)
    requires a in x.state && a in y.state && a in z.state && Continues(x, y) && Continues(y, z)
    requires SlotStory(x, y, a, k, marked) && SlotStory(y, z, a, k, more)
    ensures Continues(x, z) && SlotStory(x, z, a, k, marked || more)
  {
    ContinuesTrans(x, y, z);
    if k in x.state[a].storage {
      var es, fs := NewEntries(x, y), NewEntries(y, z);
      var present := z.state[a].storage[k].present;
      PresentConcat(es, fs, a, k, present);
      PresentSetOrKept(es, a, k, PresentAfterUndo(fs, a, k, present), y.state[a].storage[k].present);
    }
  }

  lemma HashTrans(a: Address, x: ValidJState, y: ValidJState, z: ValidJState, deeds: seq<Deed>, more: seq<Deed>,
                  isSpuriousDragon: bool)
    requires a in x.state && a in y.state && a in z.state && Continues(x, y) && Continues(y, z)
    requires HashStory(x, y, a, deeds, isSpuriousDragon) && HashStory(y, z, a, more, isSpuriousDragon)
    ensures Continues(x, z) && HashStory(x, z, a, deeds + more, isSpuriousDragon)
  {
    ContinuesTrans(x, y, z);
    var es, fs := NewEntries(x, y), NewEntries(y, z);
    HashConcat(es, fs, a, z.state[a].info.codeHash);
    assert OnlyEmpty(deeds + more, a) <==> OnlyEmpty(deeds, a) && OnlyEmpty(more, a);
    assert NoCodeOf(es + fs, a) <==> NoCodeOf(es, a) && NoCodeOf(fs, a);
    assert EmptyCodeOf(es + fs, a) <==> EmptyCodeOf(es, a) && EmptyCodeOf(fs, a);
    if Taken(y.state[a]) {
      HashUnchanged(fs, a, z.state[a].info.codeHash);
    }
    if NoCodeOf(es, a) {
      HashUnchanged(es, a, HashAfterUndo(fs, a, z.state[a].info.codeHash));
    }
  }

  lemma StoryTrans(a: Address, k: U256, x: ValidJState, y: ValidJState, z: ValidJState, deeds: seq<Deed>,
                   more: seq<Deed>, isSpuriousDragon: bool)
    requires Story(x, y, a, k, deeds, isSpuriousDragon) && Story(y, z, a, k, more, isSpuriousDragon)
    ensures Story(x, z, a, k, deeds + more, isSpuriousDragon)
  {
    SlotTrans(a, k, x, y, z, Marked(a) in deeds, Marked(a) in more);
    PinTrans(a, k, x, y, z, deeds, more);
    HashTrans(a, x, y, z, deeds, more, isSpuriousDragon);
  }

  // ---------------------------------------------------------------- operations without deeds

  ghost predicate Quiet(js: ValidJState, js': ValidJState, a: Address, k: U256) {
    && Continues(js, js')
    && a in js.state && a in js'.state
    && js'.state[a].created == js.state[a].created
    && SlotStory(js, js', a, k, false)
    && js'.state[a].info.codeHash == js.state[a].info.codeHash
    && (js.state[a].info.nonce != 0 ==> js'.state[a].info.nonce != 0)
    && NoCodeOf(NewEntries(js, js'), a)
  }

  lemma QuietTrans(a: Address, k: U256, x: ValidJState, y: ValidJState, z: ValidJState)
    requires Quiet(x, y, a, k) && Quiet(y, z, a, k)
    ensures Quiet(x, z, a, k)
  {
    SlotTrans(a, k, x, y, z, false, false);
    ContinuesTrans(x, y, z);
  }

  lemma QuietStory(a: Address, k: U256, js: ValidJState, js': ValidJState, isSpuriousDragon: bool)
    requires Quiet(js, js', a, k)
    ensures Story(js, js', a, k, [], isSpuriousDragon)
  {
  }

  lemma QuietThen(a: Address, k: U256, x: ValidJState, y: ValidJState, z: ValidJState, deeds: seq<Deed>,
                  isSpuriousDragon: bool)
    requires Quiet(x, y, a, k) && Story(y, z, a, k, deeds, isSpuriousDragon)
    ensures Story(x, z, a, k, deeds, isSpuriousDragon)
  {
    QuietStory(a, k, x, y, isSpuriousDragon);
    StoryTrans(a, k, x, y, z, [], deeds, isSpuriousDragon);
    assert [] + deeds == deeds;
  }

  lemma ThenQuiet(a: Address, k: U256, x: ValidJState, y: ValidJState, z: ValidJState, deeds: seq<Deed>,
                  isSpuriousDragon: bool)
    requires Story(x, y, a, k, deeds, isSpuriousDragon) && Quiet(y, z, a, k)
    ensures Story(x, z, a, k, deeds, isSpuriousDragon)
  {
    QuietStory(a, k, y, z, isSpuriousDragon);
    StoryTrans(a, k, x, y, z, deeds, [], isSpuriousDragon);
    assert deeds + [] == deeds;
  }

  /** What an account is for its story. */
  predicate SameStory(acc: Account, acc': Account) {
    && acc'.created == acc.created
    && acc'.storage == acc.storage
    && acc'.info.codeHash == acc.info.codeHash
    && (acc.info.nonce != 0 ==> acc'.info.nonce != 0)
  }

  lemma QuietSilent(js: ValidJState, js': ValidJState, a: Address, k: U256)
    requires js'.journal == js.journal && js.logs <= js'.logs
    requires js'.isBeforeSpuriousDragon == js.isBeforeSpuriousDragon && js'.numOfPrecompiles == js.numOfPrecompiles
    requires a in js.state && a in js'.state && SameStory(js.state[a], js'.state[a])
    ensures Quiet(js, js', a, k)
  {
    ContinuesSame(js, js');
  }

  lemma QuietReflexive(js: ValidJState, a: Address, k: U256)
    requires a in js.state
    ensures Quiet(js, js, a, k)
  {
    QuietSilent(js, js, a, k);
  }

  /** An entry that is about nothing of the story. */
  predicate Besides(e: JournalEntry, a: Address) {
    !ChangesCode(e, a) && !(e.StorageChange? && e.address == a)
  }

  lemma QuietPush(js: ValidJState, e: JournalEntry, state: State, a: Address, k: U256)
    requires a in js.state && a in state && SameStory(js.state[a], state[a]) && Besides(e, a)
    ensures Quiet(js, Push(js, e).(state := state), a, k)
  {
    ContinuesPush(js, e, state);
    PresentOfOne(e, a, k, if k in state[a].storage then state[a].storage[k].present else 0);
  }

  lemma QuietTouch(js: ValidJState, b: Address, a: Address, k: U256)
    requires a in js.state
    ensures Quiet(js, Touch(js, b), a, k)
  {
    if b in js.state && !js.state[b].touched {
      QuietPush(js, AccountTouched(b), js.state[b := js.state[b].(touched := true)], a, k);
    } else {
      QuietReflexive(js, a, k);
    }
  }

  lemma QuietLoad(db: Database, js: ValidJState, b: Address, a: Address, k: U256)
    requires a in js.state
    ensures Quiet(js, LoadAccount(js, db, b).0, a, k)
  {
    if b !in js.state && Fetch(db, b).DbOk? {
      QuietPush(js, AccountLoaded(b), js.state[b := Fetch(db, b).value], a, k);
    } else {
      QuietReflexive(js, a, k);
    }
  }

  lemma QuietCacheCode(db: Database, js: ValidJState, b: Address, a: Address, k: U256)
    requires a in js.state && b in js.state
    ensures Quiet(js, CacheCode(js, db, b).0, a, k)
  {
    QuietSilent(js, CacheCode(js, db, b).0, a, k);
  }

  lemma QuietLoadCode(db: Database, js: ValidJState, b: Address, a: Address, k: U256)
    requires a in js.state
    ensures Quiet(js, LoadCode(js, db, b).0, a, k)
  {
    var (js1, isCold) := LoadAccount(js, db, b);
    QuietLoad(db, js, b, a, k);
    if isCold.DbOk? {
      QuietCacheCode(db, js1, b, a, k);
      QuietTrans(a, k, js, js1, CacheCode(js1, db, b).0);
    }
  }

  lemma QuietNonce(js: ValidJState, b: Address, a: Address, k: U256)
    requires a in js.state && b in js.state
    ensures Quiet(js, IncNonce(js, b).0, a, k)
  {
    if js.state[b].info.nonce == U64_MAX {
      QuietReflexive(js, a, k);
    } else {
      IncNonceShape(js, b);
      var js1 := Touch(js, b);
      QuietTouch(js, b, a, k);
      QuietPush(js1, NonceChange(b), js1.state[b := WithNonce(js1.state[b], js1.state[b].info.nonce + 1)], a, k);
      QuietTrans(a, k, js, js1, IncNonce(js, b).0);
    }
  }

  /** A change of one slot of `b` with its entry. */
  lemma QuietSlot(js: ValidJState, b: Address, key: U256, slot: StorageSlot, hadValue: Option<U256>, a: Address,
                  k: U256)
    requires a in js.state && b in js.state
    requires hadValue.None? ==> key !in js.state[b].storage
    requires hadValue.Some? ==>
               key in js.state[b].storage && js.state[b].storage[key] == slot.(present := hadValue.value)
    ensures var written := js.state[b].(storage := js.state[b].storage[key := slot]);
            Quiet(js, Push(js, StorageChange(b, key, hadValue)).(state := js.state[b := written]), a, k)
  {
    var e := StorageChange(b, key, hadValue);
    var state := js.state[b := js.state[b].(storage := js.state[b].storage[key := slot])];
    ContinuesPush(js, e, state);
    PresentOfOne(e, a, k, if k in state[a].storage then state[a].storage[k].present else 0);
  }

  lemma QuietSload(db: Database, js: ValidJState, b: Address, key: U256, a: Address, k: U256)
    requires a in js.state && b in js.state
    ensures Quiet(js, Sload(js, db, b, key).0, a, k)
  {
    var js' := Sload(js, db, b, key).0;
    if js' == js {
      QuietReflexive(js, a, k);
    } else {
      QuietSlot(js, b, key, js'.state[b].storage[key], None, a, k);
    }
  }

  lemma QuietSstore(db: Database, js: ValidJState, b: Address, key: U256, value: U256, a: Address, k: U256)
    requires a in js.state && b in js.state
    ensures Quiet(js, Sstore(js, db, b, key, value).0, a, k)
  {
    var js1 := Sload(js, db, b, key).0;
    var js' := Sstore(js, db, b, key, value).0;
    QuietSload(db, js, b, key, a, k);
    if js' != js1 {
      var slot := js1.state[b].storage[key];
      QuietSlot(js1, b, key, slot.(present := value), Some(slot.present), a, k);
      QuietTrans(a, k, js, js1, js');
    }
  }

  lemma MovedStory(s: State, from: Address, to: Address, balance: U256, a: Address)
    requires from in s && to in s && a in s
    ensures a in Moved(s, from, to, balance) && SameStory(s[a], Moved(s, from, to, balance)[a])
  {
  }

  /** A payment that goes through, and one that does not. */
  lemma QuietPaid(js: ValidJState, from: Address, to: Address, balance: U256, a: Address, k: U256)
    requires from in js.state && to in js.state && a in js.state && Pay(js, from, to, balance).1.None?
    ensures Quiet(js, Pay(js, from, to, balance).0, a, k)
  {
    var js1 := Touch(js, from);
    var js2 := Touch(js1, to);
    PayIsMove(js, from, to, balance);
    QuietTouch(js, from, a, k);
    QuietTouch(js1, to, a, k);
    QuietTrans(a, k, js, js1, js2);
    MovedStory(js2.state, from, to, balance, a);
    QuietPush(js2, BalanceTransfer(from, to, balance), Moved(js2.state, from, to, balance), a, k);
    QuietTrans(a, k, js, js2, Pay(js, from, to, balance).0);
  }

  lemma UnpaidIs(js: ValidJState, from: Address, to: Address, balance: U256, js1: ValidJState, js2: ValidJState)
    requires from in js.state && to in js.state && js1 == Touch(js, from)
             && Pay(js, from, to, balance).1 == Some(OverflowPayment)
    requires balance <= js1.state[from].info.balance
    requires js2 == PutAccount(js1, from, WithBalance(js1.state[from], js1.state[from].info.balance - balance))
    ensures Pay(js, from, to, balance).0 == Touch(js2, to)
  {
    PayIsCredit(js, from, to, balance, js1, js2);
    UncreditedIs(js2, from, to, balance);
  }

  lemma QuietDebit(js: ValidJState, from: Address, left: U256, a: Address, k: U256)
    requires from in js.state && a in js.state
    ensures Quiet(js, PutAccount(js, from, WithBalance(js.state[from], left)), a, k)
  {
    QuietSilent(js, PutAccount(js, from, WithBalance(js.state[from], left)), a, k);
  }

  lemma QuietUnpaid(js: ValidJState, from: Address, to: Address, balance: U256, a: Address, k: U256)
    requires from in js.state && to in js.state && a in js.state
             && Pay(js, from, to, balance).1 == Some(OverflowPayment)
    ensures Quiet(js, Pay(js, from, to, balance).0, a, k)
  {
    var js1 := Touch(js, from);
    var js2 := PutAccount(js1, from, WithBalance(js1.state[from], js1.state[from].info.balance - balance));
    UnpaidIs(js, from, to, balance, js1, js2);
    QuietTouch(js, from, a, k);
    QuietDebit(js1, from, js1.state[from].info.balance - balance, a, k);
    QuietTouch(js2, to, a, k);
    QuietTrans(a, k, js, js1, js2);
    QuietTrans(a, k, js, js2, Touch(js2, to));
  }

  lemma QuietPay(js: ValidJState, from: Address, to: Address, balance: U256, a: Address, k: U256)
    requires from in js.state && to in js.state && a in js.state
    ensures Quiet(js, Pay(js, from, to, balance).0, a, k)
  {
    if Pay(js, from, to, balance).1.None? {
      QuietPaid(js, from, to, balance, a, k);
    } else if Pay(js, from, to, balance).1 == Some(OverflowPayment) {
      QuietUnpaid(js, from, to, balance, a, k);
    } else {
      QuietTouch(js, from, a, k);
    }
  }

  lemma QuietTransfer(db: Database, js: ValidJState, from: Address, to: Address, balance: U256, a: Address, k: U256)
    requires a in js.state
    ensures Quiet(js, Transfer(js, db, from, to, balance).0, a, k)
  {
    var js1 := LoadAccount(js, db, from).0;
    var js2 := LoadAccount(js1, db, to).0;
    QuietLoad(db, js, from, a, k);
    QuietLoad(db, js1, to, a, k);
    QuietTrans(a, k, js, js1, js2);
    if from in js1.state && to in js2.state {
      QuietPay(js2, from, to, balance, a, k);
      QuietTrans(a, k, js, js2, Transfer(js, db, from, to, balance).0);
    }
  }

  lemma QuietDestroy(js: ValidJState, b: Address, target: Address, a: Address, k: U256)
    requires a in js.state && b in js.state && target in js.state
    ensures Quiet(js, Destroy(js, b, target), a, k)
  {
    DestroyIsDestroyed(js, b, target);
    var js1 := if b == target then js else Touch(js, target);
    if b == target {
      QuietReflexive(js, a, k);
    } else {
      QuietTouch(js, target, a, k);
    }
    DestroyedStory(js1.state, b, target, a);
    QuietPush(js1, AccountDestroyed(b, target, js1.state[b].selfDestructed, js1.state[b].info.balance),
              Destroyed(js1.state, b, target), a, k);
    QuietTrans(a, k, js, js1, Destroy(js, b, target));
  }

  lemma DestroyedStory(s: State, b: Address, target: Address, a: Address)
    requires a in s && b in s && target in s
    ensures a in Destroyed(s, b, target) && SameStory(s[a], Destroyed(s, b, target)[a])
  {
  }

  lemma QuietSelfDestruct(db: Database, js: ValidJState, b: Address, target: Address, a: Address, k: U256)
    requires a in js.state && b in js.state
    ensures Quiet(js, SelfDestructAccount(js, db, b, target).0, a, k)
  {
    var js1 := LoadAccount(js, db, target).0;
    QuietLoad(db, js, target, a, k);
    if target in js1.state {
      QuietDestroy(js1, b, target, a, k);
      QuietTrans(a, k, js, js1, SelfDestructAccount(js, db, b, target).0);
    }
  }

  /** The operations that open no frame have no part in the story. */
  lemma QuietPlain(db: Database, js: ValidJState, self: Address, op: HostOp, a: Address, k: U256)
    requires !op.OpCall? && !op.OpCreate? && self in js.state && a in js.state
    ensures PlainOp(db, js, self, op).Some? && Quiet(js, PlainOp(db, js, self, op).value, a, k)
  {
    match op
    case OpBalance(b) => QuietLoad(db, js, b, a, k);
    case OpLoadAccount(b) => QuietLoad(db, js, b, a, k);
    case OpLoadCode(b) => QuietLoadCode(db, js, b, a, k);
    case OpSload(key) => QuietSload(db, js, self, key, a, k);
    case OpSstore(key, value) => QuietSstore(db, js, self, key, value, a, k);
    case OpLog(log) => QuietSilent(js, PushLog(js, log), a, k);
    case OpSelfDestruct(target) => QuietSelfDestruct(db, js, self, target, a, k);
  }

  lemma QuietEnterCall(db: Database, js: ValidJState, inputs: CallInputs, a: Address, k: U256)
    requires a in js.state
    ensures Quiet(js, EnterCall(db, js, inputs).0, a, k)
  {
    var js1 := if inputs.value == 0 then Touch(LoadAccountExist(js, db, inputs.contextAddress).0,
                                               inputs.contextAddress) else js;
    if inputs.value == 0 {
      var js0 := LoadAccountExist(js, db, inputs.contextAddress).0;
      QuietLoad(db, js, inputs.contextAddress, a, k);
      QuietTouch(js0, inputs.contextAddress, a, k);
      QuietTrans(a, k, js, js0, js1);
    } else {
      QuietReflexive(js, a, k);
    }
    QuietTransfer(db, js1, inputs.source, inputs.target, inputs.value, a, k);
    QuietTrans(a, k, js, js1, EnterCall(db, js, inputs).0);
  }

  lemma QuietPrepare(db: Database, js: ValidJState, inputs: CreateInputs, a: Address, k: U256)
    requires a in js.state
    ensures Quiet(js, PrepareCreate(db, js, inputs).0, a, k)
  {
    QuietReflexive(js, a, k);
    if js.depth <= CALL_STACK_LIMIT {
      var js1 := LoadAccount(js, db, inputs.caller).0;
      QuietLoad(db, js, inputs.caller, a, k);
      if inputs.caller in js1.state {
        QuietReserve(db, js1, inputs, a, k);
        QuietTrans(a, k, js, js1, ReserveCreate(db, js1, inputs).0);
      }
    }
  }

  lemma QuietReserve(db: Database, js: ValidJState, inputs: CreateInputs, a: Address, k: U256)
    requires a in js.state && inputs.caller in js.state
    ensures Quiet(js, ReserveCreate(db, js, inputs).0, a, k)
  {
    var js1 := IncNonce(js, inputs.caller).0;
    QuietNonce(js, inputs.caller, a, k);
    QuietLoad(db, js1, inputs.created, a, k);
    QuietTrans(a, k, js, js1, LoadAccount(js1, db, inputs.created).0);
  }

  // ---------------------------------------------------------------- frames

  /** A checkpoint and a commit have no part in the story. */
  lemma QuietCheckpoint(db: Database, js: ValidJState, a: Address, k: U256)
    requires a in js.state
    ensures Quiet(js, Checkpoint(js).1, a, k)
  {
    TrackedCheckpoint(db, js);
    CheckpointEntries(js);
  }

  lemma CheckpointEntries(js: ValidJState)
    requires Continues(js, Checkpoint(js).1)
    ensures NewEntries(js, Checkpoint(js).1) == []
  {
    var js1 := Checkpoint(js).1;
    var n := |js.journal| - 1;
    assert js1.journal[n..] == [js.journal[n]] + [[]];
    FlattenConcat([js.journal[n]], [[]]);
    FlattenSingle(js.journal[n]);
    FlattenSingle([]);
  }

  lemma CommittedStory(db: Database, js: ValidJState, js': ValidJState, a: Address, k: U256, deeds: seq<Deed>,
                       isSpuriousDragon: bool)
    requires a in js.state && Story(Checkpoint(js).1, js', a, k, deeds, isSpuriousDragon) && js'.depth > 0
    ensures Story(js, Commit(js'), a, k, deeds, isSpuriousDragon)
  {
    QuietCheckpoint(db, js, a, k);
    QuietThen(a, k, js, Checkpoint(js).1, js', deeds, isSpuriousDragon);
    QuietSilent(js', Commit(js'), a, k);
    ThenQuiet(a, k, js, js', Commit(js'), deeds, isSpuriousDragon);
  }

  /** A reverted frame leaves hash, slots and flag as its story says, and no entries. */
  lemma RevertedStory(db: Database, js: ValidJState, js': ValidJState, a: Address, k: U256, deeds: seq<Deed>,
                      isSpuriousDragon: bool)
    requires Tracked(db, Checkpoint(js).1, js') && js'.depth == js.depth + 1
    requires a in js.state && Story(Checkpoint(js).1, js', a, k, deeds, isSpuriousDragon)
    ensures CanRevert(js', Checkpoint(js).0)
    ensures Story(js, RevertTo(js', Checkpoint(js).0), a, k, deeds, isSpuriousDragon)
  {
    RevertedFrame(db, js, js');
    FrameEntries(js, js');
    var r := RevertTo(js', Checkpoint(js).0);
    var es := NewEntries(Checkpoint(js).1, js');
    assert a in r.state && RestoredAt(db, !js.isBeforeSpuriousDragon, a, js.state[a], r.state[a]);
    ContinuesSame(js, r);
    UndoLeavesFirstHash(es, js'.state, a, !js'.isBeforeSpuriousDragon);
    UndoKeepsMark(es, js'.state, a, !js'.isBeforeSpuriousDragon);
    if k in js.state[a].storage {
      assert k in js.state[a].storage.Keys;
      UndoLeavesFirstValue(es, js'.state, a, k, !js'.isBeforeSpuriousDragon);
    }
    QuietCheckpoint(db, js, a, k);
    CheckpointEntries(js);
    LaterMarks(js, Checkpoint(js).1, deeds, a, k);
    RevertedHash(js, js', r, a, deeds, isSpuriousDragon);
  }

  lemma RevertedHash(js: ValidJState, js': ValidJState, r: ValidJState, a: Address, deeds: seq<Deed>,
                     isSpuriousDragon: bool)
    requires a in js.state && a in js'.state && a in r.state && Continues(Checkpoint(js).1, js')
    requires HashStory(Checkpoint(js).1, js', a, deeds, isSpuriousDragon)
    requires Continues(js, r) && NewEntries(js, r) == [] && r.state[a].info.nonce == js.state[a].info.nonce
    requires r.state[a].info.codeHash == HashAfterUndo(NewEntries(Checkpoint(js).1, js'), a, js'.state[a].info.codeHash)
    ensures HashStory(js, r, a, deeds, isSpuriousDragon)
  {
    var es := NewEntries(Checkpoint(js).1, js');
    if Taken(js.state[a]) {
      HashUnchanged(es, a, js'.state[a].info.codeHash);
    } else if OnlyEmpty(deeds, a) {
      HashStaysEmpty(es, a);
    }
  }

  lemma ClosedStory(db: Database, js: ValidJState, js': ValidJState, ok: bool, a: Address, k: U256, deeds: seq<Deed>,
                    isSpuriousDragon: bool)
    requires Ran(db, Checkpoint(js).1, Some(js')) && a in js.state
             && Story(Checkpoint(js).1, js', a, k, deeds, isSpuriousDragon)
    ensures CloseFrame(js', Checkpoint(js).0, ok).Some?
    ensures Story(js, CloseFrame(js', Checkpoint(js).0, ok).value, a, k, deeds, isSpuriousDragon)
  {
    ClosedFrame(db, js, js', ok);
    if ok {
      CommittedStory(db, js, js', a, k, deeds, isSpuriousDragon);
    } else {
      RevertedStory(db, js, js', a, k, deeds, isSpuriousDragon);
    }
  }

  // ---------------------------------------------------------------- creations

  lemma QuietEndow(js: ValidJState, isSpuriousDragon: bool, caller: Address, b: Address, balance: U256, a: Address,
                   k: U256)
    requires b in js.state && caller in js.state && a in js.state
    ensures Quiet(js, Endow(js, isSpuriousDragon, caller, b, balance).0, a, k)
  {
    if Endow(js, isSpuriousDragon, caller, b, balance).1.None? {
      var js1 := FirstNonce(js, isSpuriousDragon, b);
      EndowIsMove(js, isSpuriousDragon, caller, b, balance);
      QuietFirstNonce(js, isSpuriousDragon, b, a, k);
      QuietMove(js1, caller, b, balance, a, k);
      QuietTrans(a, k, js, js1, Endow(js, isSpuriousDragon, caller, b, balance).0);
    } else {
      QuietReflexive(js, a, k);
    }
  }

  lemma QuietFirstNonce(js: ValidJState, isSpuriousDragon: bool, b: Address, a: Address, k: U256)
    requires a in js.state && b in js.state
    ensures Quiet(js, FirstNonce(js, isSpuriousDragon, b), a, k)
  {
    if isSpuriousDragon {
      QuietPush(js, NonceChange(b), js.state[b := WithNonce(js.state[b], 1)], a, k);
    } else {
      QuietReflexive(js, a, k);
    }
  }

  lemma QuietMove(js: ValidJState, from: Address, to: Address, balance: U256, a: Address, k: U256)
    requires a in js.state && from in js.state && to in js.state
    ensures Quiet(js, Push(js, BalanceTransfer(from, to, balance)).(state := Moved(js.state, from, to, balance)), a, k)
  {
    MovedStory(js.state, from, to, balance, a);
    QuietPush(js, BalanceTransfer(from, to, balance), Moved(js.state, from, to, balance), a, k);
  }

  /** The creation of another account. */
  lemma QuietCreate(js: ValidJState, isSpuriousDragon: bool, caller: Address, b: Address, balance: U256, a: Address,
                    k: U256)
    requires b in js.state && caller in js.state && a in js.state && a != b
    ensures Quiet(js, CreateAccount(js, isSpuriousDragon, caller, b, balance).0, a, k)
  {
    QuietReflexive(js, a, k);
    if !AccountCollision(b, js.state[b], js.numOfPrecompiles) {
      var js1 := PutAccount(js, b, MarkCreated(js.state[b]));
      QuietSilent(js, js1, a, k);
      CreatedQuietly(js1, isSpuriousDragon, caller, b, balance, a, k);
      QuietTrans(a, k, js, js1, CreateAccount(js, isSpuriousDragon, caller, b, balance).0);
    }
  }

  /** What follows the mark. */
  lemma CreatedQuietly(js: ValidJState, isSpuriousDragon: bool, caller: Address, b: Address, balance: U256,
                       a: Address, k: U256)
    requires b in js.state && caller in js.state && a in js.state
    ensures Quiet(js, Endow(Touch(js, b), isSpuriousDragon, caller, b, balance).0, a, k)
  {
    var js1 := Touch(js, b);
    QuietTouch(js, b, a, k);
    QuietEndow(js1, isSpuriousDragon, caller, b, balance, a, k);
    QuietTrans(a, k, js, js1, Endow(js1, isSpuriousDragon, caller, b, balance).0);
  }

  lemma MarkedStory(js: ValidJState, a: Address, k: U256, isSpuriousDragon: bool)
    requires a in js.state && !Taken(js.state[a])
    ensures Story(js, PutAccount(js, a, MarkCreated(js.state[a])), a, k, Marks(js, a), isSpuriousDragon)
  {
    ContinuesSame(js, PutAccount(js, a, MarkCreated(js.state[a])));
    ContinuesSame(js, js);
    assert Marks(js, a)[0] == Marked(a) && Loses(Marks(js, a)[1], js, a, k);
  }

  /** The creation of the account itself. */
  lemma CreateStory(js: ValidJState, isSpuriousDragon: bool, caller: Address, a: Address, balance: U256, k: U256)
    requires a in js.state && caller in js.state && !AccountCollision(a, js.state[a], js.numOfPrecompiles)
    ensures var r := CreateAccount(js, isSpuriousDragon, caller, a, balance);
            && Story(js, r.0, a, k, Marks(js, a), isSpuriousDragon)
            && NoCodeOf(NewEntries(js, r.0), a)
            && (isSpuriousDragon && r.1.None? ==> r.0.state[a].info.nonce != 0)
  {
    var js1 := PutAccount(js, a, MarkCreated(js.state[a]));
    var r := CreateAccount(js, isSpuriousDragon, caller, a, balance);
    MarkedStory(js, a, k, isSpuriousDragon);
    CreatedQuietly(js1, isSpuriousDragon, caller, a, balance, a, k);
    ThenQuiet(a, k, js, js1, r.0, Marks(js, a), isSpuriousDragon);
    ContinuesSame(js, js1);
    ContinuesTrans(js, js1, r.0);
    EndowNonce(Touch(js1, a), isSpuriousDragon, caller, a, balance);
  }

  lemma EndowNonce(js: ValidJState, isSpuriousDragon: bool, caller: Address, a: Address, balance: U256)
    requires a in js.state && caller in js.state
    ensures var r := Endow(js, isSpuriousDragon, caller, a, balance);
            isSpuriousDragon && r.1.None? ==> r.0.state[a].info.nonce == 1
  {
  }

  lemma SetCodeShape(js: ValidJState, b: Address, code: Bytecode)
    requires b in js.state
    ensures var js1 := Touch(js, b);
            SetCode(js, b, code) == Push(js1, CodeChange(b, code)).(state :=
              js1.state[b := js1.state[b].(info := js1.state[b].info.(codeHash := code.hash, code := Some(code)))])
  {
  }

  lemma QuietSetCode(js: ValidJState, b: Address, code: Bytecode, a: Address, k: U256)
    requires b in js.state && a in js.state && a != b
    ensures Quiet(js, SetCode(js, b, code), a, k)
  {
    SetCodeShape(js, b, code);
    var js1 := Touch(js, b);
    QuietTouch(js, b, a, k);
    var coded := js1.state[b].(info := js1.state[b].info.(codeHash := code.hash, code := Some(code)));
    QuietPush(js1, CodeChange(b, code), js1.state[b := coded], a, k);
    QuietTrans(a, k, js, js1, SetCode(js, b, code));
  }

  /** Deeds that are not about the account. */
  lemma OtherDeeds(a: Address, k: U256, x: ValidJState, y: ValidJState, deeds: seq<Deed>, more: seq<Deed>,
                   isSpuriousDragon: bool)
    requires Story(x, y, a, k, deeds, isSpuriousDragon) && Marked(a) !in more && NoneDeployed(more, a)
    requires LaterThan(more, x) && forall d | d in more && d.Zeroed? :: d.a != a
    ensures Story(x, y, a, k, deeds + more, isSpuriousDragon)
  {
    LostConcat(deeds, more, x, a, k);
    assert OnlyEmpty(deeds + more, a) <==> OnlyEmpty(deeds, a);
    assert NoneDeployed(deeds + more, a) <==> NoneDeployed(deeds, a);
  }

  /** In the init code of an account with nonce 1, nothing else is deployed to it. */
  ghost predicate Undeployed(x: ValidJState, y: ValidJState, a: Address, deeds: seq<Deed>)
    requires Continues(x, y)
  {
    NoCodeOf(NewEntries(x, y), a) && NoneDeployed(deeds, a) && a in y.state && y.state[a].info.nonce != 0
  }

  /** A deployment adds its code change to the journal, and touches before it. */
  lemma DeployedEntries(x: ValidJState, y: ValidJState, a: Address, code: Bytecode) returns (touches: Entries)
    requires a in y.state && Continues(x, y)
    ensures Continues(x, SetCode(y, a, code))
    ensures NewEntries(x, SetCode(y, a, code)) == NewEntries(x, y) + touches + [CodeChange(a, code)]
            && NoCodeOf(touches, a)
  {
    var y1, z := Touch(y, a), SetCode(y, a, code);
    TouchEntries(y, a);
    touches := NewEntries(y, y1);
    SetCodeShape(y, a, code);
    ContinuesPush(y1, CodeChange(a, code), z.state);
    ContinuesTrans(y, y1, z);
    ContinuesTrans(x, y, z);
    AssociateSeqs(NewEntries(x, y), touches, [CodeChange(a, code)]);
    NoCodeInTouches(touches, a);
  }

  lemma NoCodeInTouches(es: Entries, a: Address)
    requires OnlyTouches(es)
    ensures NoCodeOf(es, a)
  {
  }

  lemma HashOfDeployed(es: Entries, touches: Entries, a: Address, code: Bytecode)
    requires NoCodeOf(touches, a)
    ensures var all := es + touches + [CodeChange(a, code)];
            && (EmptyCodeOf(all, a) <==> EmptyCodeOf(es, a) && code.hash == KECCAK_EMPTY)
            && (NoCodeOf(es, a) ==> HashAfterUndo(all, a, code.hash) == code.hash)
  {
    var last := [CodeChange(a, code)];
    assert last[0] in es + touches + last;
    if NoCodeOf(es, a) {
      HashConcat(es + touches, last, a, code.hash);
      HashUnchanged(es + touches, a, code.hash);
      HashOfOne(CodeChange(a, code), a, code.hash);
    }
  }

  lemma OneMoreDeployed(deeds: seq<Deed>, a: Address, hash: B256)
    ensures OnlyEmpty(deeds + [Deployed(a, hash)], a) <==> OnlyEmpty(deeds, a) && hash == KECCAK_EMPTY
  {
    assert Deployed(a, hash) in deeds + [Deployed(a, hash)];
  }

  lemma DeployedHashStory(x: ValidJState, y: ValidJState, a: Address, deeds: seq<Deed>, code: Bytecode,
                          isSpuriousDragon: bool)
    requires a in x.state && a in y.state && Continues(x, y) && HashStory(x, y, a, deeds, isSpuriousDragon)
             && !Taken(x.state[a])
    requires isSpuriousDragon ==> Undeployed(x, y, a, deeds)
    ensures Continues(x, SetCode(y, a, code))
    ensures HashStory(x, SetCode(y, a, code), a, deeds + [Deployed(a, code.hash)], isSpuriousDragon)
  {
    var touches := DeployedEntries(x, y, a, code);
    HashOfDeployed(NewEntries(x, y), touches, a, code);
    OneMoreDeployed(deeds, a, code.hash);
  }

  lemma HashOfOne(e: JournalEntry, a: Address, hash: B256)
    ensures HashAfterUndo([e], a, hash) == if ChangesCode(e, a) then e.hadCode.hash else hash
  {
    assert [e][1..] == [];
  }

  /** The slots do not change with the code. */
  lemma SetCodeSlots(js: ValidJState, a: Address, code: Bytecode, k: U256)
    requires a in js.state
    ensures Continues(js, SetCode(js, a, code)) && SlotStory(js, SetCode(js, a, code), a, k, false)
    ensures SetCode(js, a, code).state[a].created == js.state[a].created
  {
    var js1, js2 := Touch(js, a), SetCode(js, a, code);
    SetCodeShape(js, a, code);
    QuietTouch(js, a, a, k);
    ContinuesPush(js1, CodeChange(a, code), js2.state);
    PresentOfOne(CodeChange(a, code), a, k, if k in js2.state[a].storage then js2.state[a].storage[k].present else 0);
    SlotTrans(a, k, js, js1, js2, false, false);
  }

  /** Deploying to the account whose creation began at `x`. */
  lemma DeployedStory(x: ValidJState, y: ValidJState, a: Address, k: U256, deeds: seq<Deed>, code: Bytecode,
                      isSpuriousDragon: bool)
    requires Story(x, y, a, k, deeds, isSpuriousDragon) && !Taken(x.state[a])
    requires isSpuriousDragon ==> Undeployed(x, y, a, deeds)
    ensures Story(x, SetCode(y, a, code), a, k, deeds + [Deployed(a, code.hash)], isSpuriousDragon)
  {
    DeployedHashStory(x, y, a, deeds, code, isSpuriousDragon);
    SetCodeSlots(y, a, code, k);
    SlotTrans(a, k, x, y, SetCode(y, a, code), Marked(a) in deeds, false);
    PinTrans(a, k, x, y, SetCode(y, a, code), deeds, []);
    assert deeds + [] == deeds;
    LostConcat(deeds, [Deployed(a, code.hash)], x, a, k);
  }
}
