/** Answers under every schedule: a request with enough turns is answered, whatever others do in between. */
module Schedules {
  import opened Wrappers
  import opened Text
  import opened Nonce
  import opened Tpm
  import opened Service
  import opened Safety
  import opened Guarantees
  import opened Progress
  import opened Release

  /** A step at which nothing goes wrong for the request that takes it; one that measures finds a readable folder. */
  ghost predicate SmoothStep(p: Platform, c: Choice, measures: bool) {
    c == Smooth(c.reading, c.newKey) && (measures ==> DigestOf(p, c.reading).Some?)
  }

  /** Nothing goes wrong at the turns of request `i`; those of others may come to anything. */
  ghost predicate SmoothTurns(p: Platform, actions: seq<Action>, i: nat, measures: bool) {
    forall k | 0 <= k < |actions| :: Own(actions[k], i) ==> SmoothStep(p, actions[k].choice, measures)
  }

  /** How often request `i` is given a turn while it does not wait for a lock that another one holds. */
  function FreeTurns(p: Platform, s: State, actions: seq<Action>, i: nat): nat
    decreases |actions|
  {
    if actions == [] then 0
    else
      (if Own(actions[0], i) && !Blocked(s, i) then 1 else 0) + FreeTurns(p, Next(p, s, actions[0]), actions[1..], i)
  }

  lemma SmoothRest(p: Platform, actions: seq<Action>, i: nat, measures: bool)
    requires actions != [] && SmoothTurns(p, actions, i, measures)
    ensures SmoothTurns(p, actions[1..], i, measures)
    ensures Own(actions[0], i) ==> SmoothStep(p, actions[0].choice, measures)
  {
    hide SmoothStep;
    assert forall k | 0 <= k < |actions| - 1 :: actions[1..][k] == actions[k + 1];
  }

  // ----- what others cannot touch -----

  lemma OtherLocalTurn(p: Platform, s: State, i: nat, j: nat, c: Choice)
    requires Ideal(p) && Inv(p, s) && i < |s.requests| && j < |s.requests| && i != j && Locked(s.requests[i])
    requires IsLocal(s.requests[j].phase)
    ensures View(LocalTurn(p, s, j, c), i) == View(s, i)
  {
    hide LocalStep, RequestOk, CacheOk, IsLocal, Locked, HasScratch;
    assert RequestOk(p, View(s, j)) && !Locked(s.requests[j]);
    LocalIsInside(s.requests[j]);
    ScratchMeansInside(s.requests[j]);
    assert View(s, j) == Local(s.tpm, s.cachedPem, DirectoryOf(s, s.requests[j]), s.requests[j]);
    LocalKeeps(p, View(s, j), c);
  }

  lemma OtherScratchTurn(p: Platform, s: State, i: nat, j: nat, c: Choice)
    requires Inv(p, s) && i < |s.requests| && j < |s.requests| && i != j && s.scratchCounter < SCRATCH_IDS
    ensures View(ScratchTurn(s, j, c), i) == View(s, i)
  {
    hide RequestsOk, CacheOk, LockOk, Leave;
  }

  lemma OtherDropTurn(p: Platform, s: State, i: nat, j: nat, c: Choice)
    requires Inv(p, s) && i < |s.requests| && j < |s.requests| && i != j && s.requests[j].phase.DropScratch?
    ensures View(DropTurn(s, j, c), i) == View(s, i)
  {
    hide RequestsOk, CacheOk, LockOk, Leave;
    LocalIsInside(s.requests[j]);
  }

  /** Neither the lock holder's TPM, cache and files nor anybody's variables are touched by others. */
  lemma OthersLeaveTheView(p: Platform, s: State, i: nat, a: Action)
    requires Ideal(p) && Inv(p, s) && s.scratchCounter < SCRATCH_IDS && i < |s.requests| && !Own(a, i)
    ensures i < |Next(p, s, a).requests| && Next(p, s, a).requests[i] == s.requests[i]
    ensures Locked(s.requests[i]) ==> View(Next(p, s, a), i) == View(s, i)
  {
    hide Inv, Ideal, Locked, LocalTurn, ScratchTurn, DropTurn, Enter, VerifyReport;
    if a.Turn? && a.id < |s.requests| {
      var req := s.requests[a.id];
      OthersStay(p, s, a.id, a.choice);
      if Locked(s.requests[i]) {
        if IsLocal(req.phase) {
          OtherLocalTurn(p, s, i, a.id, a.choice);
        } else if req.phase.NewScratch? {
          OtherScratchTurn(p, s, i, a.id, a.choice);
        } else if req.phase.DropScratch? {
          OtherDropTurn(p, s, i, a.id, a.choice);
        }
      }
    }
  }

  /** Outside the lock nothing is achieved yet, or everything. */
  lemma OutsideIsOnCourse(l: Local, l': Local)
    requires OnCourse(l) && l'.req == l.req && !Locked(l.req)
    ensures OnCourse(l')
  {
    hide Usable, HasKey;
  }

  lemma GoingStays(p: Platform, s: State, i: nat, a: Action)
    requires Ideal(p) && Inv(p, s) && s.scratchCounter < SCRATCH_IDS && Going(s, i) && !Own(a, i)
    ensures Going(Next(p, s, a), i) && Next(p, s, a).requests[i] == s.requests[i]
  {
    hide Inv, Ideal, Next, OnCourse, Locked;
    OthersLeaveTheView(p, s, i, a);
    if !Locked(s.requests[i]) {
      OutsideIsOnCourse(View(s, i), View(Next(p, s, a), i));
    }
  }

  // ----- the answer -----

  /** A turn that comes to nothing: of a request that is finished or waits for another's lock. */
  lemma IdleTurn(p: Platform, s: State, i: nat, c: Choice)
    requires i < |s.requests| && (s.requests[i].phase.Finished? || Blocked(s, i))
    ensures Next(p, s, Turn(i, c)) == s
  {
  }

  /** One action of any request: request `i` stays on course, and is closer to its reply if it had a free turn. */
  lemma ActionAdvances(p: Platform, s: State, i: nat, a: Action)
    requires Ideal(p) && Inv(p, s) && s.scratchCounter < SCRATCH_IDS && Going(s, i)
    requires Own(a, i) ==> SmoothStep(p, a.choice, true)
    ensures
      var s' := Next(p, s, a);
      && Going(s', i) && SameRequest(s.requests[i], s'.requests[i])
      && Distance(s'.requests[i]) <= Distance(s.requests[i])
      && (Own(a, i) && !Blocked(s, i) && Distance(s.requests[i]) > 0 ==>
            Distance(s'.requests[i]) < Distance(s.requests[i]))
  {
    hide Inv, Ideal, Next, OnCourse, DigestOf;
    if !Own(a, i) {
      GoingStays(p, s, i, a);
    } else if s.requests[i].phase.Finished? || Blocked(s, i) {
      IdleTurn(p, s, i, a.choice);
    } else {
      TurnAdvances(p, s, i, a.choice.reading, a.choice.newKey);
    }
  }

  lemma ArrivedAtReply(s: State, i: nat)
    requires Going(s, i) && Distance(s.requests[i]) == 0
    ensures s.requests[i].phase.Finished? && s.requests[i].phase.outcome.Replied?
    ensures HasKey(s.requests[i].phase.outcome.reply)
  {
    hide Usable, HasKey;
  }

  /** In every continuation that gives it enough free turns, a request that is on course is answered. */
  lemma {:induction false} EnoughTurnsAnswer(p: Platform, s: State, i: nat, actions: seq<Action>) returns (reply: Reply)
    requires Ideal(p) && Inv(p, s) && Going(s, i) && s.scratchCounter + |actions| <= SCRATCH_IDS
    requires SmoothTurns(p, actions, i, true) && FreeTurns(p, s, actions, i) >= Distance(s.requests[i])
    ensures Answered(Run(p, s, actions), i, reply) && SameRequest(s.requests[i], Run(p, s, actions).requests[i])
    ensures HasKey(reply)
    decreases |actions|
  {
    if actions == [] {
      ArrivedAtReply(s, i);
      reply := s.requests[i].phase.outcome.reply;
    } else {
      hide Inv, Ideal, Next, Going, SmoothTurns, SmoothStep, Distance, HasKey, Blocked;
      SmoothRest(p, actions, i, true);
      NextKeeps(p, s, actions[0]);
      ActionAdvances(p, s, i, actions[0]);
      reply := EnoughTurnsAnswer(p, Next(p, s, actions[0]), i, actions[1..]);
    }
  }
}
