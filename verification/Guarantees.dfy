/** The promises of the service, over all runs, read off the invariant. */
module Guarantees {
  import opened Wrappers
  import opened Text
  import opened Codec
  import opened Nonce
  import opened Tpm
  import opened Service
  import opened Safety
  import Tdx

  /** A run from a fresh process, short of wrapping the 64-bit scratch counter. */
  ghost predicate Reachable(p: Platform, s: State) {
    exists s0, actions :: Initial(s0) && |actions| < SCRATCH_IDS && s == Run(p, s0, actions)
  }

  lemma {:induction false} RunKeeps(p: Platform, s: State, actions: seq<Action>)
    requires Ideal(p) && Inv(p, s) && s.scratchCounter + |actions| <= SCRATCH_IDS
    ensures Inv(p, Run(p, s, actions)) && KeysKept(s.tpm, Run(p, s, actions).tpm)
    decreases |actions|
  {
    hide Inv, Next;
    if actions != [] {
      NextKeeps(p, s, actions[0]);
      RunKeeps(p, Next(p, s, actions[0]), actions[1..]);
    }
  }

  lemma InitialOk(p: Platform, s: State)
    requires Initial(s)
    ensures Inv(p, s)
  {
  }

  /** The invariant holds in every reachable state. */
  lemma ReachableOk(p: Platform, s: State)
    requires Ideal(p) && Reachable(p, s)
    ensures Inv(p, s)
  {
    hide Inv, Run, Initial;
    var s0, actions :| Initial(s0) && |actions| < SCRATCH_IDS && s == Run(p, s0, actions);
    InitialOk(p, s0);
    assert s0.scratchCounter == 0 by { InitialCounter(s0); }
    RunKeeps(p, s0, actions);
  }

  lemma InitialCounter(s: State)
    requires Initial(s)
    ensures s.scratchCounter == 0
  {
  }

  predicate Answered(s: State, i: nat, reply: Reply) {
    i < |s.requests| && s.requests[i].phase == Finished(Replied(reply))
  }

  /**
   * Whatever other requests did, failed at or panicked in: a measuring request that answers shows
   * the digest of the bytes it hashed itself, the PCR value of one extension of a reset PCR by
   * that digest, and a quote of exactly that value and its own challenge by the persisted key; a
   * verifying request gives the verdict on what was posted to it.
   */
  lemma AnswersAreHonest(p: Platform, s: State, i: nat, reply: Reply)
    requires Ideal(p) && Reachable(p, s) && Answered(s, i, reply)
    ensures Honest(p, s.tpm, s.requests[i], reply)
  {
    ReachableOk(p, s);
    assert RequestOk(p, View(s, i));
  }

  /**
   * The three flags of every answered verification, one by one: the quote flag is what the check of the
   * posted quote says, the TDX flag what the module says of the posted report, and `trusted` is both. So
   * whatever is wrong with one half, no rejected half is ever answered trusted.
   */
  lemma VerdictsAreExact(p: Platform, s: State, i: nat, reply: Reply)
    requires Ideal(p) && Reachable(p, s) && Answered(s, i, reply) && s.requests[i].kind.VerifyAll?
    ensures
      var body := s.requests[i].kind.body;
      && reply.Verdict? && body.tdx.Some?
      && var (report, signature, message) :=
           (FromHex(body.tdx.value.report), DecodeBlob(body.tpm.signature), DecodeBlob(body.tpm.message));
      && report.Some? && signature.Ok? && message.Ok?
      && (reply.trusted <==> reply.tpmTrusted && reply.tdxTrusted)
      && (reply.tpmTrusted <==> p.checkQuote(body.akPubkey, body.tpm.hashAlgorithm, message.value,
                                             signature.value, body.tpm.nonce))
      && (reply.tdxTrusted <==> p.tdx.verify(report.value) == 0)
  {
    hide Ideal, Reachable, FromHex, DecodeBlob;
    AnswersAreHonest(p, s, i, reply);
  }

  /** At most one request is inside a transaction, and it is the holder of the lock. */
  lemma TransactionsExclude(p: Platform, s: State, i: nat, j: nat)
    requires Ideal(p) && Reachable(p, s) && i < |s.requests| && j < |s.requests|
    requires Locked(s.requests[i]) && Locked(s.requests[j])
    ensures i == j && s.holder == Some(i)
  {
    ReachableOk(p, s);
  }

  /** Scratch directories in use are distinct, also those of verifications outside the lock. */
  lemma DirectoriesAreApart(p: Platform, s: State, i: nat, j: nat)
    requires Ideal(p) && Reachable(p, s) && i < |s.requests| && j < |s.requests| && i != j
    requires HasScratch(s.requests[i]) && HasScratch(s.requests[j])
    ensures s.requests[i].vars.scratch != s.requests[j].vars.scratch
  {
    ReachableOk(p, s);
    hide HasScratch;
  }

  // ----- the Attestation Key -----

  /** Every persistent key outlives every continuation of a run. */
  lemma KeysAreForever(p: Platform, s: State, actions: seq<Action>)
    requires Ideal(p) && Reachable(p, s) && s.scratchCounter + |actions| <= SCRATCH_IDS
    ensures KeysKept(s.tpm, Run(p, s, actions).tpm)
  {
    ReachableOk(p, s);
    RunKeeps(p, s, actions);
  }

  lemma IssuedKeys(p: Platform, l: Local, c: Choice)
    requires IsLocal(l.req.phase)
    ensures
      var keys := LocalStep(p, l, c).tpm.keys;
      && (keys == l.tpm.keys || (l.req.phase.PersistAk? && keys.Keys == l.tpm.keys.Keys + {p.akHandle}))
  {
    hide ReadQuote, AttachReport, ReplyOf, VerifyStep, AfterCommand, DecodedOr, Perform;
    if IsCommand(l.req.phase) {
      PerformKeepsKeys(p, l.tpm, l.dir, CommandOf(p, l.req), c.newKey);
    } else if l.req.kind.VerifyAll? {
      TrialsKeepTheTpm(p, l, c);
    }
  }

  lemma TrialsKeepTheTpm(p: Platform, l: Local, c: Choice)
    requires l.req.kind.VerifyAll?
    ensures VerifyStep(p, l, c).tpm == l.tpm
  {
    hide DecodeBlob, CheckFiles;
  }

  /** Only steps inside a transaction reach the TPM. */
  lemma OtherStepsLeaveTheTpm(p: Platform, s: State, a: Action)
    requires a.Turn? && a.id < |s.requests| ==> !IsLocal(s.requests[a.id].phase)
    ensures Next(p, s, a).tpm == s.tpm
  {
    hide Enter, VerifyReport, LocalTurn;
  }

  /** A key appears only at the configured handle, only when that handle is empty. */
  lemma KeysAreMadeOnce(p: Platform, s: State, a: Action)
    requires Ideal(p) && Reachable(p, s)
    ensures
      var s' := Next(p, s, a);
      && (s'.tpm.keys == s.tpm.keys
          || (a.Turn? && a.id < |s.requests| && s.requests[a.id].phase.PersistAk? && p.akHandle !in s.tpm.keys
              && s'.tpm.keys.Keys == s.tpm.keys.Keys + {p.akHandle}))
  {
    ReachableOk(p, s);
    hide Reachable, Inv, Next, RequestOk, IsLocal, Ideal;
    if a.Turn? && a.id < |s.requests| && IsLocal(s.requests[a.id].phase) {
      LocalTurnIsStep(p, s, a.id, a.choice);
      KeysOfStep(p, View(s, a.id), a.choice);
    } else {
      OtherStepsLeaveTheTpm(p, s, a);
    }
  }

  lemma LocalTurnIsStep(p: Platform, s: State, i: nat, c: Choice)
    requires Inv(p, s) && i < |s.requests| && IsLocal(s.requests[i].phase)
    ensures Next(p, s, Turn(i, c)).tpm == LocalStep(p, View(s, i), c).tpm && RequestOk(p, View(s, i))
  {
    hide LocalStep, RequestOk, CacheOk, LockOk, ScratchOk, IsCommand;
  }

  lemma KeysOfStep(p: Platform, l: Local, c: Choice)
    requires RequestOk(p, l) && IsLocal(l.req.phase)
    ensures
      var keys := LocalStep(p, l, c).tpm.keys;
      || keys == l.tpm.keys
      || (l.req.phase.PersistAk? && p.akHandle !in l.tpm.keys && keys.Keys == l.tpm.keys.Keys + {p.akHandle})
  {
    hide LocalStep, RequestOk, IsLocal;
    IssuedKeys(p, l, c);
    if l.req.phase.PersistAk? {
      PersistFindsNothing(p, l);
    }
  }

  lemma PersistFindsNothing(p: Platform, l: Local)
    requires RequestOk(p, l) && l.req.phase.PersistAk?
    ensures p.akHandle !in l.tpm.keys
  {
  }

  /** The cache, once filled, is the public part of the persisted key. */
  lemma CacheIsCurrent(p: Platform, s: State)
    requires Ideal(p) && Reachable(p, s) && s.cachedPem.Some?
    ensures p.akHandle in s.tpm.keys && s.cachedPem.value == p.pem(s.tpm.keys[p.akHandle])
  {
    ReachableOk(p, s);
    hide RequestsOk, LockOk, ScratchOk;
  }

  /**
   * A completed attestation ran 7 commands, 7 more if it had to make the key and 2 more if it
   * had to read the public part; none of these when key and cache were there at lock time.
   */
  lemma AttestationCost(p: Platform, s: State, i: nat, reply: Reply)
    requires Ideal(p) && Reachable(p, s) && Answered(s, i, reply)
    requires s.requests[i].kind.AttestationAll? || s.requests[i].kind.QuoteTpm?
    ensures
      var t := s.requests[i].tally;
      && t.commands in {7, 9, 14, 16}
      && (t.commands == 7 <==> !t.created && !t.missed)
      && (t.warmAtLock ==> t.commands == 7)
  {
    AnswersAreHonest(p, s, i, reply);
    ReachableOk(p, s);
    assert RequestOk(p, View(s, i));
    hide Measured, Quoted, Reported, NormalizeNonce, TransactionOk;
  }

  // ----- attestation and verification together -----

  /** Both halves of a combined attestation are about the one canonical challenge. */
  lemma HalvesShareTheChallenge(p: Platform, tpm: Tpm.Device, req: Request, reply: Reply)
    requires Ideal(p) && req.kind.AttestationAll? && Honest(p, tpm, req, reply)
    ensures
      var a := reply.attestation;
      var nonce := FromHex(Trim(req.nonceText));
      && nonce.Some? && a.tdx.Some? && a.tpm.nonce == ToHex(nonce.value) && a.tdx.value.nonce == a.tpm.nonce
      && FromHex(a.tdx.value.report).Some?
      && Tdx.ReportDataOf(FromHex(a.tdx.value.report).value) == Tdx.ReportData(nonce.value)
      && Tdx.ReportData(nonce.value).Ok?
  {
    AcceptedExactly(req.nonceText);
    var nonce := FromHex(Trim(req.nonceText)).value;
    ToHexOfFromHex(req.vars.nonce);
    var data := Tdx.ReportData(nonce).value;
    FromHexOfToHex(p.tdx.report(data));
    hide Quoted, Measured;
  }

  lemma HonestQuoteChecks(p: Platform, key: Key, totalHash: string, nonce: string, e: TpmEvidence)
    requires Ideal(p) && Canonical(nonce) && Quoted(p, key, totalHash, nonce, e)
    ensures
      var s, m := DecodeBlob(e.signature), DecodeBlob(e.message);
      s.Ok? && m.Ok? && p.checkQuote(p.pem(key), e.hashAlgorithm, m.value, s.value, e.nonce)
  {
    var message := p.attest(p.sha256(Extended(p, totalHash)), DecodedOr(nonce));
    BlobRoundTrip(message);
    BlobRoundTrip(p.sign(key, message));
    ToHexOfFromHex(nonce);
    hide DecodeBlob, EncodeBlob, JoinQuote, ToHex, Lower, Extended;
  }

  /** An honest attestation with a public key passes both verifiers. */
  lemma HonestIsAccepted(p: Platform, tpm: Tpm.Device, req: Request, reply: Reply)
    requires Ideal(p) && req.kind.AttestationAll? && Honest(p, tpm, req, reply)
    requires reply.attestation.akPubkey != ""
    ensures VerdictFor(p, reply.attestation) == Some(Verdict(true, true, true))
  {
    var a := reply.attestation;
    HalvesShareTheChallenge(p, tpm, req, reply);
    AcceptedExactly(req.nonceText);
    HonestQuoteChecks(p, tpm.keys[p.akHandle], a.totalHash, req.vars.nonce, a.tpm);
    var data := Tdx.ReportData(DecodedOr(req.vars.nonce)).value;
    FromHexOfToHex(p.tdx.report(data));
    hide NormalizeNonce, Quoted, Measured, DecodeBlob, FromHex;
  }

  /**
   * The two halves are judged one by one: the TDX half of one trusted attestation beside the TPM
   * half of another is trusted too. Whether both are about one challenge is for the reader of the
   * attestation to compare; `HalvesShareTheChallenge` says that they are when the service made it.
   */
  lemma HalvesAreJudgedApart(p: Platform, a: Attestation, b: Attestation)
    requires VerdictFor(p, a) == Some(Verdict(true, true, true)) && VerdictFor(p, b) == Some(Verdict(true, true, true))
    ensures VerdictFor(p, a.(tdx := b.tdx)) == Some(Verdict(true, true, true))
  {
    hide FromHex, DecodeBlob;
  }

  /**
   * Completeness of the pair: whenever a service on this platform answered an attestation with a
   * public key, any verification of it that is answered says trusted, three times.
   */
  lemma AttestationVerifies(p: Platform, s: State, i: nat, a: Attestation, s': State, j: nat, verdict: Reply)
    requires Ideal(p) && Reachable(p, s) && Reachable(p, s')
    requires Answered(s, i, Attested(a)) && s.requests[i].kind.AttestationAll? && a.akPubkey != ""
    requires Answered(s', j, verdict) && s'.requests[j].kind == VerifyAll(a)
    ensures verdict == Verdict(true, true, true)
  {
    AnswersAreHonest(p, s, i, Attested(a));
    AnswersAreHonest(p, s', j, verdict);
    HonestIsAccepted(p, s.tpm, s.requests[i], Attested(a));
    hide VerdictFor;
  }
}
