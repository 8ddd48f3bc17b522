/** Whatever failed before, the service answers: measurements with a key, and verifications with a verdict. */
module Recovery {
  import opened Wrappers
  import opened Text
  import opened Codec
  import opened Nonce
  import opened Tpm
  import opened Service
  import opened Safety
  import opened Guarantees
  import opened Progress
  import opened Release
  import opened Schedules
  import opened Trials

  lemma {:induction false} RunAppend(p: Platform, s: State, a: seq<Action>, b: seq<Action>)
    ensures Run(p, s, a + b) == Run(p, Run(p, s, a), b)
    decreases |a|
  {
    hide Next;
    if a == [] {
      assert a + b == b;
    } else {
      assert (a + b)[1..] == a[1..] + b && (a + b)[0] == a[0];
      RunAppend(p, Next(p, s, a[0]), a[1..], b);
    }
  }

  /** A reachable state with room for some more actions before the scratch counter could wrap. */
  ghost predicate ReachableWith(p: Platform, s: State, room: nat) {
    exists s0, actions :: Initial(s0) && |actions| + room < SCRATCH_IDS && s == Run(p, s0, actions)
  }

  lemma Continued(p: Platform, s: State, more: seq<Action>, room: nat)
    requires ReachableWith(p, s, room) && |more| <= room
    ensures ReachableWith(p, Run(p, s, more), room - |more|)
  {
    hide Initial, Run;
    var s0, actions :| Initial(s0) && |actions| + room < SCRATCH_IDS && s == Run(p, s0, actions);
    RunAppend(p, s0, actions, more);
    assert |actions + more| + (room - |more|) < SCRATCH_IDS;
  }

  lemma RoomMeansInv(p: Platform, s: State, room: nat)
    requires Ideal(p) && ReachableWith(p, s, room)
    ensures Reachable(p, s) && Inv(p, s) && s.scratchCounter + room <= SCRATCH_IDS
  {
    hide Initial, Run, Inv, Ideal;
    var s0, actions :| Initial(s0) && |actions| + room < SCRATCH_IDS && s == Run(p, s0, actions);
    InitialCounter(s0);
    CounterBound(p, s0, actions);
    assert Reachable(p, s);
    ReachableOk(p, s);
  }

  /** Each action creates at most one scratch directory. */
  lemma {:induction false} CounterBound(p: Platform, s: State, actions: seq<Action>)
    ensures Run(p, s, actions).scratchCounter <= s.scratchCounter + |actions|
    decreases |actions|
  {
    if actions != [] {
      CounterStep(p, s, actions[0]);
      hide Next;
      CounterBound(p, Next(p, s, actions[0]), actions[1..]);
    }
  }

  lemma CounterStep(p: Platform, s: State, a: Action)
    ensures Next(p, s, a).scratchCounter <= s.scratchCounter + 1
  {
    hide LocalStep, Enter, VerifyReport;
  }

  /** An arrival, and then more. */
  lemma RunCons(p: Platform, s: State, a: Action, rest: seq<Action>)
    ensures Run(p, s, [a] + rest) == Run(p, Next(p, s, a), rest)
  {
    hide Next;
    assert ([a] + rest)[0] == a && ([a] + rest)[1..] == rest;
  }

  lemma ArrivesGoing(p: Platform, s: State, kind: Kind, nonceText: string)
    requires !kind.VerifyAll? && (kind.InformationTpm? || Usable(nonceText))
    ensures
      var s', i := Next(p, s, Arrive(kind, nonceText)), |s.requests|;
      && Going(s', i) && Distance(s'.requests[i]) == 40
      && s'.requests[i].kind == kind && s'.requests[i].nonceText == nonceText
      && s'.scratchCounter == s.scratchCounter && s'.holder == s.holder
  {
    hide Usable;
  }

  /** With the lock free, a new measuring request is answered. */
  lemma FreeServiceAnswers(p: Platform, s: State, kind: Kind, nonceText: string, reading: Reading, key: Key)
    returns (more: seq<Action>, reply: Reply)
    requires Ideal(p) && ReachableWith(p, s, 41) && s.holder.None? && DigestOf(p, reading).Some?
    requires !kind.VerifyAll? && (kind.InformationTpm? || Usable(nonceText))
    ensures |more| <= 41
    ensures
      var s', i := Run(p, s, more), |s.requests|;
      && Answered(s', i, reply) && HasKey(reply)
      && s'.requests[i].kind == kind && s'.requests[i].nonceText == nonceText
  {
    hide Inv, Ideal, Run, Usable, DigestOf, Next;
    var arrive := Arrive(kind, nonceText);
    RoomMeansInv(p, s, 41);
    NextKeeps(p, s, arrive);
    var s1 := Next(p, s, arrive);
    ArrivesGoing(p, s, kind, nonceText);
    var rest;
    rest, reply := LeftAloneIsAnswered(p, s1, |s.requests|, reading, key);
    more := [arrive] + rest;
    RunCons(p, s, arrive, rest);
  }

  /**
   * From every reachable state - whatever failed, panicked, is still running or was left behind in TPM,
   * cache and files - a new measuring request with a usable challenge is answered if nothing goes wrong
   * at its own steps: honestly, and with the public part of the key.
   */
  lemma ServiceRecovers(p: Platform, s: State, kind: Kind, nonceText: string, reading: Reading, key: Key)
    returns (more: seq<Action>, reply: Reply)
    requires Ideal(p) && ReachableWith(p, s, 70) && DigestOf(p, reading).Some?
    requires !kind.VerifyAll? && (kind.InformationTpm? || Usable(nonceText))
    ensures |more| <= 70
    ensures
      var s', i := Run(p, s, more), |s.requests|;
      && Reachable(p, s') && Answered(s', i, reply)
      && s'.requests[i].kind == kind && s'.requests[i].nonceText == nonceText
      && HasKey(reply) && Honest(p, s'.tpm, s'.requests[i], reply)
  {
    hide Inv, Ideal, Run, Usable, DigestOf, Honest, HasKey, ReachableWith, Reachable;
    RoomMeansInv(p, s, 70);
    var before := LockCanBeFreed(p, s, Smooth(reading, key));
    var s1 := Run(p, s, before);
    Continued(p, s, before, 70);
    MoreRoom(p, s1, 70 - |before|, 41);
    var after;
    after, reply := FreeServiceAnswers(p, s1, kind, nonceText, reading, key);
    more := before + after;
    RunAppend(p, s, before, after);
    Continued(p, s, more, 70);
    RoomMeansInv(p, Run(p, s, more), 70 - |more|);
    AnswersAreHonest(p, Run(p, s, more), |s.requests|, reply);
  }

  lemma MoreRoom(p: Platform, s: State, room: nat, less: nat)
    requires ReachableWith(p, s, room) && less <= room
    ensures ReachableWith(p, s, less)
  {
    hide Initial, Run;
  }

  lemma ArrivesOnTrial(p: Platform, s: State, body: Attestation, nonceText: string)
    requires VerdictFor(p, body).Some?
    ensures
      var s1 := Next(p, s, Arrive(VerifyAll(body), nonceText));
      && |s1.requests| == |s.requests| + 1 && OnTrial(p, s1.requests[|s.requests|])
      && StepsLeft(s1.requests[|s.requests|]) == 10 && s1.requests[|s.requests|].kind == VerifyAll(body)
  {
    hide VerdictFor;
  }

  /**
   * From every reachable state, also while others hold the lock, a posted attestation that has a verdict
   * is answered with it in every continuation that gives the verification ten turns at which nothing goes
   * wrong, whatever others do in between.
   */
  lemma VerdictIsGiven(p: Platform, s: State, body: Attestation, nonceText: string, actions: seq<Action>)
    returns (reply: Reply)
    requires Ideal(p) && ReachableWith(p, s, |actions| + 1) && VerdictFor(p, body).Some?
    requires SmoothTurns(p, actions, |s.requests|, false) && OwnTurns(actions, |s.requests|) >= 10
    ensures
      var s', i := Run(p, s, [Arrive(VerifyAll(body), nonceText)] + actions), |s.requests|;
      && Reachable(p, s') && Answered(s', i, reply) && s'.requests[i].kind == VerifyAll(body)
      && Some(reply) == VerdictFor(p, body)
  {
    hide Ideal, Run, Next, VerdictFor, ReachableWith, Reachable, SmoothTurns;
    var arrive := Arrive(VerifyAll(body), nonceText);
    ArrivesOnTrial(p, s, body, nonceText);
    reply := TrialEnds(p, Next(p, s, arrive), |s.requests|, actions);
    RunCons(p, s, arrive, actions);
    Continued(p, s, [arrive] + actions, |actions| + 1);
    RoomMeansInv(p, Run(p, s, [arrive] + actions), 0);
    AnswersAreHonest(p, Run(p, s, [arrive] + actions), |s.requests|, reply);
  }

  /**
   * The pair is complete: an attestation with a public key that a service on this platform answered,
   * posted to any service on it in any state, is answered trusted, three times, in every such continuation.
   */
  lemma AttestationIsTrusted(p: Platform, s: State, i: nat, a: Attestation, s': State, nonceText: string,
                             actions: seq<Action>)
    requires Ideal(p) && Reachable(p, s) && Answered(s, i, Attested(a)) && s.requests[i].kind.AttestationAll?
    requires a.akPubkey != "" && ReachableWith(p, s', |actions| + 1)
    requires SmoothTurns(p, actions, |s'.requests|, false) && OwnTurns(actions, |s'.requests|) >= 10
    ensures
      var end, j := Run(p, s', [Arrive(VerifyAll(a), nonceText)] + actions), |s'.requests|;
      Reachable(p, end) && Answered(end, j, Verdict(true, true, true)) && end.requests[j].kind == VerifyAll(a)
  {
    hide Ideal, Run, VerdictFor, ReachableWith, Reachable, Honest, SmoothTurns;
    AnswersAreHonest(p, s, i, Attested(a));
    HonestIsAccepted(p, s.tpm, s.requests[i], Attested(a));
    var reply := VerdictIsGiven(p, s', a, nonceText, actions);
  }

  /**
   * From every reachable state, a new measuring request with a usable challenge is answered in every
   * continuation that gives it forty turns at which nothing goes wrong and it does not wait for a lock
   * that another one holds: honestly, with the public part of the key, whatever others do in between.
   * That every holder gives the lock back is `Release.HolderReleases`.
   */
  lemma EveryScheduleAnswers(p: Platform, s: State, kind: Kind, nonceText: string, actions: seq<Action>)
    returns (reply: Reply)
    requires Ideal(p) && ReachableWith(p, s, |actions| + 1)
    requires !kind.VerifyAll? && (kind.InformationTpm? || Usable(nonceText))
    requires SmoothTurns(p, actions, |s.requests|, true)
    requires FreeTurns(p, Next(p, s, Arrive(kind, nonceText)), actions, |s.requests|) >= 40
    ensures
      var s', i := Run(p, s, [Arrive(kind, nonceText)] + actions), |s.requests|;
      && Reachable(p, s') && Answered(s', i, reply)
      && s'.requests[i].kind == kind && s'.requests[i].nonceText == nonceText
      && HasKey(reply) && Honest(p, s'.tpm, s'.requests[i], reply)
  {
    hide Inv, Ideal, Run, Usable, Next, Honest, HasKey, ReachableWith, Reachable, SmoothTurns;
    var arrive := Arrive(kind, nonceText);
    RoomMeansInv(p, s, |actions| + 1);
    NextKeeps(p, s, arrive);
    ArrivesGoing(p, s, kind, nonceText);
    reply := EnoughTurnsAnswer(p, Next(p, s, arrive), |s.requests|, actions);
    RunCons(p, s, arrive, actions);
    Continued(p, s, [arrive] + actions, |actions| + 1);
    RoomMeansInv(p, Run(p, s, [arrive] + actions), 0);
    AnswersAreHonest(p, Run(p, s, [arrive] + actions), |s.requests|, reply);
  }
}
