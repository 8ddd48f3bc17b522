/** What a verifier can tell from answers: the folder from the PCR value, the challenge from the two halves. */
module EndToEnd {
  import opened Wrappers
  import opened Text
  import opened Codec
  import opened Nonce
  import opened Tpm
  import opened Service
  import opened Safety
  import opened Guarantees
  import opened Progress
  import opened Release
  import opened Schedules
  import opened Recovery
  import Folder
  import Measurement
  import WalkTheorems
  import D = DigestTheorems
  import Tdx

  // ----- the folder behind a PCR value -----

  function PcrValueOf(reply: Reply): string {
    match reply
    case Information(_, pcrValue, _) => pcrValue
    case Attested(a) => a.pcrValue
    case Verdict(_, _, _) => ""
  }

  /** The measurement behind an answer, if the folder was not disturbed. */
  ghost function ScanOf(p: Platform, reading: Reading): D.Scan
    requires reading.Undisturbed?
  {
    D.Scan(reading.world, reading.listing, p.measureDir)
  }

  /** A request that was answered, having read an undisturbed folder with plain names. */
  ghost predicate PlainAnswer(p: Platform, s: State, i: nat, reply: Reply) {
    && Ideal(p) && Reachable(p, s) && Answered(s, i, reply) && !s.requests[i].kind.VerifyAll?
    && s.requests[i].vars.reading.Undisturbed? && D.PlainlyMeasured(ScanOf(p, s.requests[i].vars.reading))
  }

  ghost function FolderOf(p: Platform, s: State, i: nat, reply: Reply): D.Scan
    requires PlainAnswer(p, s, i, reply)
  {
    ScanOf(p, s.requests[i].vars.reading)
  }

  lemma DigestOfScan(p: Platform, reading: Reading)
    requires reading.Undisturbed? && D.Succeeds(ScanOf(p, reading))
    ensures DigestOf(p, reading) == Some(ToHex(p.sha256(Measurement.Stream(p.sha256, D.FilesIn(ScanOf(p, reading))))))
  {
    hide D.Succeeds, Measurement.FilesOf, Measurement.Stream, ToHex;
    assert Measurement.FilesOf(reading.world, reading.listing, p.measureDir).Some? by {
      SucceedsHasFiles(ScanOf(p, reading));
    }
  }

  lemma SucceedsHasFiles(s: D.Scan)
    requires D.Succeeds(s)
    ensures Measurement.FilesOf(s.w, s.listing, s.path).Some?
  {
    hide Measurement.FilesOf, Measurement.RootOf;
  }

  lemma PlainSucceeds(s: D.Scan)
    requires D.PlainlyMeasured(s)
    ensures D.Succeeds(s)
  {
    hide D.Succeeds;
  }

  /** The digest that went into the PCR of an answer. */
  ghost function FolderDigest(p: Platform, s: State, i: nat, reply: Reply): Bytes
    requires PlainAnswer(p, s, i, reply)
  {
    p.sha256(Measurement.Stream(p.sha256, D.FilesIn(FolderOf(p, s, i, reply))))
  }

  lemma PcrIsOfFolder(p: Platform, s: State, i: nat, reply: Reply)
    requires PlainAnswer(p, s, i, reply)
    ensures PcrValueOf(reply) == ToHex(p.sha256(ZERO_DIGEST + FolderDigest(p, s, i, reply)))
  {
    var reading := s.requests[i].vars.reading;
    hide Ideal, Reachable, D.PlainlyMeasured, DigestOf, Measurement.Stream, D.FilesIn, ToHex, FromHex, Quoted, Reported;
    hide NormalizeNonce, AkOf;
    AnswersAreHonest(p, s, i, reply);
    PlainSucceeds(ScanOf(p, reading));
    DigestOfScan(p, reading);
    HexDecodes(FolderDigest(p, s, i, reply));
  }

  /** Extending a reset PCR does not collide on two digests. */
  predicate NoPcrCollision(sha: Bytes -> Bytes, a: Bytes, b: Bytes) {
    sha(ZERO_DIGEST + a) == sha(ZERO_DIGEST + b) ==> ZERO_DIGEST + a == ZERO_DIGEST + b
  }

  lemma HexIsInjective(a: Bytes, b: Bytes)
    ensures ToHex(a) == ToHex(b) <==> a == b
  {
    FromHexOfToHex(a);
    FromHexOfToHex(b);
  }

  lemma ExtensionIsInjective(sha: Bytes -> Bytes, a: Bytes, b: Bytes)
    requires NoPcrCollision(sha, a, b)
    ensures ToHex(sha(ZERO_DIGEST + a)) == ToHex(sha(ZERO_DIGEST + b)) <==> a == b
  {
    HexIsInjective(sha(ZERO_DIGEST + a), sha(ZERO_DIGEST + b));
    hide ToHex;
    if ZERO_DIGEST + a == ZERO_DIGEST + b {
      assert (ZERO_DIGEST + a)[DIGEST_LEN..] == a && (ZERO_DIGEST + b)[DIGEST_LEN..] == b;
    }
  }

  /**
   * The PCR value tells the folder: two answers, of one service or of two with the same hash, show the
   * same PCR value exactly when the folders they read hold the same files, barring collisions.
   */
  lemma PcrTellsTheFolder(p: Platform, s: State, i: nat, reply: Reply, p': Platform, s': State, j: nat, reply': Reply)
    requires PlainAnswer(p, s, i, reply) && PlainAnswer(p', s', j, reply') && p.sha256 == p'.sha256
    requires D.GoodHash(p.sha256, FolderOf(p, s, i, reply), FolderOf(p', s', j, reply'))
    requires NoPcrCollision(p.sha256, FolderDigest(p, s, i, reply), FolderDigest(p', s', j, reply'))
    ensures PcrValueOf(reply) == PcrValueOf(reply')
            <==> D.SameFiles(FolderOf(p, s, i, reply), FolderOf(p', s', j, reply'))
  {
    PcrIsOfFolder(p, s, i, reply);
    PcrIsOfFolder(p', s', j, reply');
    hide Ideal, Reachable, D.PlainlyMeasured, D.GoodHash, D.SameFiles, Measurement.Stream, D.FilesIn, ToHex,
      NoPcrCollision;
    var (a, b) := (FolderOf(p, s, i, reply), FolderOf(p', s', j, reply'));
    var (d, d') := (FolderDigest(p, s, i, reply), FolderDigest(p', s', j, reply'));
    ExtensionIsInjective(p.sha256, d, d');
    HexIsInjective(d, d');
    D.PlainDigestsTell(p.sha256, a, b);
  }

  // ----- the challenges behind two halves -----

  /** An answered attestation with a public key, and the challenge it was asked for. */
  ghost predicate Attests(p: Platform, tpm: Tpm.Device, req: Request, a: Attestation) {
    req.kind.AttestationAll? && Honest(p, tpm, req, Attested(a)) && a.akPubkey != ""
  }

  function ChallengeOf(req: Request): Bytes {
    DecodedOr(Trim(req.nonceText))
  }

  /** REPORTDATA of the TDX half is that of the challenge in the TPM half: a caller's check before posting. */
  predicate HalvesAgree(a: Attestation) {
    && a.tdx.Some? && FromHex(a.tdx.value.report).Some? && FromHex(a.tpm.nonce).Some?
    && Tdx.ReportDataOf(FromHex(a.tdx.value.report).value) == Tdx.ReportData(FromHex(a.tpm.nonce).value)
  }

  lemma AttestationParts(p: Platform, tpm: Tpm.Device, req: Request, a: Attestation)
    requires Ideal(p) && Attests(p, tpm, req, a)
    ensures a.tdx.Some? && a.tpm.nonce == a.tdx.value.nonce == ToHex(ChallengeOf(req))
    ensures FromHex(a.tpm.nonce) == Some(ChallengeOf(req)) && |ChallengeOf(req)| <= Tdx.REPORTDATA_LEN
    ensures FromHex(a.tdx.value.report).Some?
    ensures Tdx.ReportDataOf(FromHex(a.tdx.value.report).value) == Tdx.ReportData(ChallengeOf(req))
    ensures VerdictFor(p, a) == Some(Verdict(true, true, true))
  {
    hide Ideal, Honest, VerdictFor, ToHex, FromHex, Tdx.ReportDataOf;
    HalvesShareTheChallenge(p, tpm, req, Attested(a));
    HonestIsAccepted(p, tpm, req, Attested(a));
    FromHexOfToHex(ChallengeOf(req));
  }

  /**
   * Halves of two attestations, put together, are trusted whatever the challenges. They agree on REPORTDATA
   * exactly when the two challenges are equal up to the zeros at their ends, and name the same challenge
   * exactly when they are equal.
   */
  lemma MixedHalves(
    p: Platform, tpm: Tpm.Device, req: Request, a: Attestation, tpm': Tpm.Device, req': Request, b: Attestation)
    requires Ideal(p) && Attests(p, tpm, req, a) && Attests(p, tpm', req', b)
    ensures
      var mixed := a.(tdx := b.tdx);
      && VerdictFor(p, mixed) == Some(Verdict(true, true, true))
      && (HalvesAgree(mixed) <==> Tdx.Stripped(ChallengeOf(req)) == Tdx.Stripped(ChallengeOf(req')))
      && (mixed.tpm.nonce == mixed.tdx.value.nonce <==> ChallengeOf(req) == ChallengeOf(req'))
  {
    AttestationParts(p, tpm, req, a);
    AttestationParts(p, tpm', req', b);
    hide Ideal, Attests, VerdictFor, ToHex, FromHex, Tdx.ReportDataOf, Tdx.ReportData, Tdx.Stripped, ChallengeOf;
    HalvesAreJudgedApart(p, a, b);
    HexIsInjective(ChallengeOf(req), ChallengeOf(req'));
    Tdx.PaddingBindsExactly(ChallengeOf(req), ChallengeOf(req'));
  }

  lemma AttestsAt(p: Platform, s: State, i: nat, reply: Reply, nonceText: string)
    requires Ideal(p) && Reachable(p, s) && Answered(s, i, reply) && s.requests[i].kind.AttestationAll? && HasKey(reply)
    ensures reply.Attested? && Attests(p, s.tpm, s.requests[i], reply.attestation)
  {
    hide Ideal, Reachable, Measured, Quoted, Reported, NormalizeNonce, AkOf;
    AnswersAreHonest(p, s, i, reply);
  }

  /**
   * So `trusted` does not say that the halves share a challenge: on every platform, from every reachable
   * state, two challenges get two attestations of which halves can be put together that do not agree,
   * and what is posted then is answered trusted, three times.
   */
  lemma TrustedHalvesMayDiffer(p: Platform, s: State, n: string, n': string, reading: Reading, key: Key)
    returns (s1: State, s2: State, s3: State, a: Attestation, b: Attestation)
    requires Ideal(p) && ReachableWith(p, s, 151) && DigestOf(p, reading).Some?
    requires Usable(n) && Usable(n') && Tdx.Stripped(DecodedOr(Trim(n))) != Tdx.Stripped(DecodedOr(Trim(n')))
    ensures Reachable(p, s1) && Reachable(p, s2) && Reachable(p, s3)
    ensures Answered(s1, |s.requests|, Attested(a)) && Answered(s2, |s1.requests|, Attested(b))
    ensures
      var mixed := a.(tdx := b.tdx);
      && !HalvesAgree(mixed) && Answered(s3, |s2.requests|, Verdict(true, true, true))
      && s3.requests[|s2.requests|].kind == VerifyAll(mixed)
  {
    hide Ideal, Reachable, ReachableWith, DigestOf, Usable, Run, HasKey, HalvesAgree, Honest, Attests, VerdictFor;
    hide Tdx.Stripped, DecodedOr;
    var reply, reply';
    s1, reply := AskOnce(p, s, 151, n, reading, key);
    s2, reply' := AskOnce(p, s1, 81, n', reading, key);
    a, b := reply.attestation, reply'.attestation;
    MixedHalves(p, s1.tpm, s1.requests[|s.requests|], a, s2.tpm, s2.requests[|s1.requests|], b);
    var turns := TenTurns(p, |s2.requests|, reading, key);
    MoreRoom(p, s2, 11, |turns| + 1);
    var verdict := VerdictIsGiven(p, s2, a.(tdx := b.tdx), "", turns);
    s3 := Run(p, s2, [Arrive(VerifyAll(a.(tdx := b.tdx)), "")] + turns);
  }

  lemma TenTurns(p: Platform, i: nat, reading: Reading, key: Key) returns (turns: seq<Action>)
    ensures |turns| == 10 && SmoothTurns(p, turns, i, false) && OwnTurns(turns, i) == 10
  {
    turns := seq(10, _ => Turn(i, Smooth(reading, key)));
    OnlyOwnTurns(turns, i);
  }

  lemma {:induction false} OnlyOwnTurns(turns: seq<Action>, i: nat)
    requires forall k | 0 <= k < |turns| :: Own(turns[k], i)
    ensures OwnTurns(turns, i) == |turns|
  {
    if turns != [] {
      OnlyOwnTurns(turns[1..], i);
    }
  }

  /** One attestation asked for and answered. */
  lemma AskOnce(p: Platform, s: State, room: nat, n: string, reading: Reading, key: Key)
    returns (s': State, reply: Reply)
    requires Ideal(p) && room >= 70 && ReachableWith(p, s, room) && DigestOf(p, reading).Some? && Usable(n)
    ensures ReachableWith(p, s', room - 70) && Reachable(p, s') && Answered(s', |s.requests|, reply)
    ensures reply.Attested? && Attests(p, s'.tpm, s'.requests[|s.requests|], reply.attestation)
    ensures s'.requests[|s.requests|].nonceText == n
  {
    hide Ideal, Reachable, ReachableWith, DigestOf, Usable, Run, HasKey, Honest, Attests;
    MoreRoom(p, s, room, 70);
    var more;
    more, reply := ServiceRecovers(p, s, AttestationAll, n, reading, key);
    s' := Run(p, s, more);
    Continued(p, s, more, room);
    MoreRoom(p, s', room - |more|, room - 70);
    AttestsAt(p, s', |s.requests|, reply, n);
  }
}
