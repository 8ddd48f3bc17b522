/** Scratch directories do not outlive their requests. */
module Leftovers {
  import opened Wrappers
  import opened Tpm
  import opened Service
  import opened Safety
  import opened Guarantees
  import opened Progress
  import opened Release
  import opened Faults

  /** Request `i` is using directory `d`. */
  predicate Uses(s: State, i: nat, d: nat) {
    i < |s.requests| && HasScratch(s.requests[i]) && s.requests[i].vars.scratch == d
  }

  /** Every directory that is there is in use. */
  ghost predicate AllInUse(s: State) {
    forall d | d in s.scratch :: exists i: nat :: Uses(s, i, d)
  }

  /** Whenever a directory is dropped its removal succeeds. */
  predicate RemovalsSucceed(p: Platform, s: State, actions: seq<Action>)
    decreases |actions|
  {
    actions != [] ==>
      && (actions[0].Turn? && actions[0].id < |s.requests| && s.requests[actions[0].id].phase.DropScratch? ==>
            actions[0].choice.succeeds)
      && RemovalsSucceed(p, Next(p, s, actions[0]), actions[1..])
  }

  /** A turn of request `i` that keeps all directories but its own in use. */
  lemma OthersStillUse(s: State, s': State, i: nat)
    requires AllInUse(s) && i < |s.requests| && |s'.requests| == |s.requests|
    requires forall j | 0 <= j < |s.requests| && j != i :: s'.requests[j] == s.requests[j]
    requires forall d | d in s'.scratch :: (d in s.scratch && !Uses(s, i, d)) || Uses(s', i, d)
    ensures AllInUse(s')
  {
    hide HasScratch;
    forall d | d in s'.scratch ensures exists j: nat :: Uses(s', j, d) {
      if !Uses(s', i, d) {
        var j: nat :| Uses(s, j, d);
        assert Uses(s', j, d);
      }
    }
  }

  lemma LocalTurnUses(p: Platform, s: State, i: nat, c: Choice)
    requires Ideal(p) && Inv(p, s) && i < |s.requests| && IsLocal(s.requests[i].phase) && AllInUse(s)
    ensures AllInUse(LocalTurn(p, s, i, c))
  {
    var s' := LocalTurn(p, s, i, c);
    LocalIsInside(s.requests[i]);
    LocalTurnStaysInside(p, s, i, c);
    LocalIsInside(s'.requests[i]);
    assert RequestOk(p, View(s, i));
    LocalKeeps(p, View(s, i), c);
    hide LocalStep, RequestOk, Inv, Ideal, IsLocal, AllInUse, HasScratch;
    OthersStillUse(s, s', i);
  }

  lemma ScratchTurnUses(s: State, i: nat, c: Choice)
    requires i < |s.requests| && s.requests[i].phase.NewScratch? && AllInUse(s)
    ensures AllInUse(ScratchTurn(s, i, c))
  {
    hide AllInUse;
    OthersStillUse(s, ScratchTurn(s, i, c), i);
  }

  lemma DropTurnUses(s: State, i: nat, c: Choice)
    requires i < |s.requests| && s.requests[i].phase.DropScratch? && c.succeeds && AllInUse(s)
    ensures AllInUse(DropTurn(s, i, c))
  {
    hide AllInUse;
    OthersStillUse(s, DropTurn(s, i, c), i);
  }

  /** A turn outside any directory. */
  lemma OutsideTurnUses(p: Platform, s: State, i: nat, c: Choice)
    requires i < |s.requests| && !HasScratch(s.requests[i]) && !s.requests[i].phase.NewScratch? && AllInUse(s)
    ensures AllInUse(TakeTurn(p, s, i, c))
  {
    OthersStay(p, s, i, c);
    hide AllInUse, LocalTurn, Enter, VerifyReport;
    OthersStillUse(s, TakeTurn(p, s, i, c), i);
  }

  lemma ArrivalUses(s: State, req: Request)
    requires AllInUse(s)
    ensures AllInUse(s.(requests := s.requests + [req]))
  {
    hide HasScratch;
    var s' := s.(requests := s.requests + [req]);
    forall d | d in s'.scratch ensures exists j: nat :: Uses(s', j, d) {
      var j: nat :| Uses(s, j, d);
      assert Uses(s', j, d);
    }
  }

  lemma NextUses(p: Platform, s: State, a: Action)
    requires Ideal(p) && Inv(p, s) && AllInUse(s)
    requires a.Turn? && a.id < |s.requests| && s.requests[a.id].phase.DropScratch? ==> a.choice.succeeds
    ensures AllInUse(Next(p, s, a))
  {
    match a
    case Arrive(kind, nonceText) =>
      hide AllInUse;
      ArrivalUses(s, NewRequest(kind, nonceText));
    case Turn(i, c) =>
      if i < |s.requests| {
        hide AllInUse, LocalTurn, ScratchTurn, DropTurn, Enter, VerifyReport, Inv, Ideal;
        var ph := s.requests[i].phase;
        if IsLocal(ph) {
          LocalTurnUses(p, s, i, c);
        } else if ph.NewScratch? {
          ScratchTurnUses(s, i, c);
        } else if ph.DropScratch? {
          DropTurnUses(s, i, c);
        } else {
          OutsideTurnUses(p, s, i, c);
        }
      }
  }

  /**
   * In every run that begins with no directories and in which removals succeed, the directories that are
   * there are those of the requests that are using one, whatever failed or panicked; so when all requests
   * are finished none is left.
   */
  lemma {:induction false} NothingIsLeft(p: Platform, s: State, actions: seq<Action>)
    requires Ideal(p) && Inv(p, s) && s.scratchCounter + |actions| <= SCRATCH_IDS
    requires AllInUse(s) && RemovalsSucceed(p, s, actions)
    ensures AllInUse(Run(p, s, actions))
    ensures (forall i | 0 <= i < |Run(p, s, actions).requests| :: Run(p, s, actions).requests[i].phase.Finished?) ==>
              |Run(p, s, actions).scratch| == 0
    decreases |actions|
  {
    hide Inv, Ideal, Next, AllInUse;
    if actions == [] {
      FinishedUseNothing(s);
    } else {
      NextKeeps(p, s, actions[0]);
      NextUses(p, s, actions[0]);
      NothingIsLeft(p, Next(p, s, actions[0]), actions[1..]);
    }
  }

  lemma FinishedUseNothing(s: State)
    requires AllInUse(s)
    ensures (forall i | 0 <= i < |s.requests| :: s.requests[i].phase.Finished?) ==> |s.scratch| == 0
  {
    if forall i | 0 <= i < |s.requests| :: s.requests[i].phase.Finished? {
      assert forall i: nat, d: nat :: !Uses(s, i, d);
      hide Uses;
      assert s.scratch == map[];
    }
  }

  /** A fresh process with an empty temporary directory. */
  lemma FreshStart(p: Platform, s: State)
    requires Initial(s) && s.scratch == map[]
    ensures Inv(p, s) && AllInUse(s)
  {
  }

  // ----- what is never taken back -----

  lemma NextGoesOn(p: Platform, s: State, a: Action)
    ensures Next(p, s, a).scratchCounter >= s.scratchCounter && (s.poisoned ==> Next(p, s, a).poisoned)
  {
    hide LocalStep, Enter, VerifyReport;
  }

  lemma {:induction false} RunGoesOn(p: Platform, s: State, actions: seq<Action>)
    ensures Run(p, s, actions).scratchCounter >= s.scratchCounter && (s.poisoned ==> Run(p, s, actions).poisoned)
    decreases |actions|
  {
    hide Next;
    if actions != [] {
      NextGoesOn(p, s, actions[0]);
      RunGoesOn(p, Next(p, s, actions[0]), actions[1..]);
    }
  }

  lemma AttemptCounts(p: Platform, s: State, i: nat, c: Choice)
    requires i < |s.requests| && s.requests[i].phase.NewScratch? && s.scratchCounter < SCRATCH_IDS
    ensures Next(p, s, Turn(i, c)).scratchCounter == s.scratchCounter + 1
    ensures c.succeeds && !c.panics ==> Next(p, s, Turn(i, c)).requests[i].vars.scratch == s.scratchCounter
  {
    hide Leave, LocalTurn, Enter, VerifyReport, LockTurn, DropTurn, UnlockTurn;
  }

  /** No directory number is handed out twice: a failed attempt uses its number up as well. */
  lemma NumbersAreUsedOnce(p: Platform, s: State, i: nat, c: Choice, actions: seq<Action>)
    requires i < |s.requests| && s.requests[i].phase.NewScratch? && s.scratchCounter < SCRATCH_IDS
    ensures Run(p, Next(p, s, Turn(i, c)), actions).scratchCounter > s.scratchCounter
    ensures c.succeeds && !c.panics ==> Next(p, s, Turn(i, c)).requests[i].vars.scratch == s.scratchCounter
  {
    AttemptCounts(p, s, i, c);
    RunGoesOn(p, Next(p, s, Turn(i, c)), actions);
    hide Run, Next;
  }

  /** A directory that is there already is used with the files in it. */
  lemma FilesStay(p: Platform, s: State, i: nat, c: Choice)
    requires i < |s.requests| && s.requests[i].phase.NewScratch? && c.succeeds && !c.panics
    requires s.scratchCounter in s.scratch && s.scratchCounter < SCRATCH_IDS
    ensures
      var s' := Next(p, s, Turn(i, c));
      DirectoryOf(s', s'.requests[i]) == s.scratch[s.scratchCounter]
  {
    hide Leave, LocalTurn, Enter, VerifyReport, LockTurn, DropTurn, UnlockTurn;
  }

  /** A panic under the lock poisons it, once and for all. */
  lemma PanicPoisons(p: Platform, s: State, i: nat, c: Choice, actions: seq<Action>)
    requires i < |s.requests| && s.requests[i].phase == Unlock(Panicked)
    ensures Run(p, Next(p, s, Turn(i, c)), actions).poisoned
  {
    RunGoesOn(p, Next(p, s, Turn(i, c)), actions);
    hide Run;
  }
}
