/**
  Checkpoints. Whatever tracked operations run inside a frame, committed inner
  frames included, a commit keeps the frame tracked for its surroundings and a
  revert succeeds and restores the state of the checkpoint.
 */
module Frames {
  import opened Words
  import opened Accounts
  import opened Journal
  import opened Rollback
  import opened Tracking

  lemma TrackedCheckpoint(db: Database, js: ValidJState)
    ensures Tracked(db, js, Checkpoint(js).1)
    ensures Checkpoint(js).1.journal[|js.journal|] == []
  {
    var js1 := Checkpoint(js).1;
    var n := |js.journal| - 1;
    assert js1.journal[n..] == [js.journal[n]] + [[]];
    FlattenConcat([js.journal[n]], [[]]);
    FlattenSingle(js.journal[n]);
    FlattenSingle([]);
    assert NewEntries(js, js1) == [];
    RestoredReflexive(db, !js.isBeforeSpuriousDragon, js.state);
    RecoversSilent(db, !js.isBeforeSpuriousDragon, js.state, js.state);
  }

  lemma TrackedCommit(db: Database, js: ValidJState)
    requires js.depth > 0
    ensures Tracked(db, js, Commit(js))
  {
    RestoredReflexive(db, !js.isBeforeSpuriousDragon, js.state);
    TrackedSilent(db, js, Commit(js));
  }

  /** A committed frame is one tracked operation of the frame around it. */
  lemma CommittedFrame(db: Database, js: ValidJState, js': ValidJState)
    requires Tracked(db, Checkpoint(js).1, js') && js'.depth > 0
    ensures Tracked(db, js, Commit(js'))
  {
    TrackedCheckpoint(db, js);
    TrackedTrans(db, js, Checkpoint(js).1, js');
    TrackedCommit(db, js');
    TrackedTrans(db, js, js', Commit(js'));
  }

  /** The vectors the revert takes off the journal hold exactly the frame's entries. */
  lemma FrameEntries(js: ValidJState, js': ValidJState)
    requires Continues(Checkpoint(js).1, js')
    ensures Flatten(js'.journal[|js.journal|..]) == NewEntries(Checkpoint(js).1, js')
    ensures js'.journal[..|js.journal|] == js.journal
    ensures js'.logs[..|js.logs|] == js.logs
  {
    var js1 := Checkpoint(js).1;
    assert js1.journal[..|js.journal|] == js.journal;
  }

  /** Undoing the frame's entries goes through, and leads to a state that shows the one of the checkpoint. */
  lemma RevertedState(db: Database, js: ValidJState, js': ValidJState) returns (restored: State)
    requires Tracked(db, Checkpoint(js).1, js') && js'.depth == js.depth + 1
    ensures UndoAll(Flatten(js'.journal[|js.journal|..]), js'.state, !js'.isBeforeSpuriousDragon) == Some(restored)
    ensures Restored(db, !js.isBeforeSpuriousDragon, js.state, restored)
  {
    var js1 := Checkpoint(js).1;
    FrameEntries(js, js');
    RestoredReflexive(db, !js.isBeforeSpuriousDragon, js'.state);
    restored := RecoversAt(db, !js.isBeforeSpuriousDragon, js.state, NewEntries(js1, js'), js'.state, js'.state);
  }

  lemma RevertShape(js: ValidJState, js': ValidJState, restored: State)
    requires Continues(Checkpoint(js).1, js') && js'.depth == js.depth + 1
    requires UndoAll(Flatten(js'.journal[|js.journal|..]), js'.state, !js'.isBeforeSpuriousDragon) == Some(restored)
    ensures CanRevert(js', Checkpoint(js).0) && RevertTo(js', Checkpoint(js).0) == js.(state := restored)
  {
    FrameEntries(js, js');
  }

  /**
    A reverted frame: no undo panics, the state of the checkpoint is restored,
    and journal, logs and depth are those of the checkpoint.
   */
  lemma RevertedFrame(db: Database, js: ValidJState, js': ValidJState)
    requires Tracked(db, Checkpoint(js).1, js') && js'.depth == js.depth + 1
    ensures CanRevert(js', Checkpoint(js).0)
    ensures var r := RevertTo(js', Checkpoint(js).0);
            && Restored(db, !js.isBeforeSpuriousDragon, js.state, r.state)
            && r.(state := js.state) == js
            && Tracked(db, js, r)
  {
    var restored := RevertedState(db, js, js');
    RevertShape(js, js', restored);
    TrackedSilent(db, js, js.(state := restored));
  }
}
